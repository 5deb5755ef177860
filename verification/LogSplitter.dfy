/**
 The line splitter behind the tunnel's log output (tunnel/cloudflared/slogio.go): bytes arrive
 in arbitrary writes and leave as bounded log lines.

 `SplitText` is the reference, a split of a whole text on CR LF, CR or LF. `Feed` is the same
 split one byte at a time. `Writer` is the object the program keeps; its `Valid` ties the
 buffer and the log to the history of writes.
 */
module LogSplitter {

  type Byte = bv8
  type Bytes = seq<Byte>

  const CR: Byte := 13
  const LF: Byte := 10

  const MAX_LINE: nat := 4096

  /** The UTF-8 bytes of an ellipsis followed by " [truncated]". */
  const MARK: Bytes := [0xE2, 0x80, 0xA6, 0x20, 0x5B, 0x74, 0x72, 0x75, 0x6E, 0x63, 0x61, 0x74, 0x65, 0x64, 0x5D]

  const LIMIT: nat := MAX_LINE - |MARK|

  predicate Delimiter(c: Byte) { c == CR || c == LF }

  // ----- the reference split

  function FirstDelimiter(t: Bytes): (i: nat)
    ensures i <= |t|
    ensures i < |t| ==> Delimiter(t[i])
    ensures forall k :: 0 <= k < i ==> !Delimiter(t[k])
  {
    if t == [] || Delimiter(t[0]) then 0 else 1 + FirstDelimiter(t[1..])
  }

  /** What follows the delimiter at `i`; CR LF is one delimiter. */
  function Beyond(t: Bytes, i: nat): (r: Bytes)
    requires i < |t|
    ensures |r| < |t|
  {
    if t[i] == CR && i + 1 < |t| && t[i + 1] == LF then t[i + 2..] else t[i + 1..]
  }

  /** The ended lines of a text and what follows the last delimiter. */
  function SplitText(t: Bytes): (seq<Bytes>, Bytes)
    decreases |t|
  {
    var i := FirstDelimiter(t);
    if i == |t| then ([], t)
    else
      var (lines, rest) := SplitText(Beyond(t, i));
      ([t[..i]] + lines, rest)
  }

  // ----- byte by byte, and write by write

  /** A line in full, and whether some write ended when exactly MAX_LINE bytes of it had arrived. */
  datatype Line = Line(full: Bytes, cut: bool)

  datatype Split = Split(lines: seq<Line>, open: Line, skip: bool)

  const START: Split := Split([], Line([], false), false)

  function Ended(s: Split): Split { s.(lines := s.lines + [s.open], open := Line([], false)) }

  function WithLine(s: Split, piece: Bytes, delim: Byte): (r: Split)
    ensures Settled(r.open)
  {
    Ended(s.(open := s.open.(full := s.open.full + piece))).(skip := delim == CR)
  }

  function Feed(s: Split, c: Byte): Split {
    if s.skip && c == LF then s.(skip := false)
    else if Delimiter(c) then Ended(s).(skip := c == CR)
    else s.(open := s.open.(full := s.open.full + [c]), skip := false)
  }

  function FeedAll(s: Split, b: Bytes): Split
    decreases |b|
  {
    if b == [] then s else FeedAll(Feed(s, b[0]), b[1..])
  }

  /** The end of a write leaves a cut in a line that is exactly full. */
  function EndWrite(s: Split): Split {
    s.(open := s.open.(cut := s.open.cut || |s.open.full| == MAX_LINE))
  }

  function AfterWrite(s: Split, chunk: Bytes): Split { EndWrite(FeedAll(s, chunk)) }

  function AfterClose(s: Split): Split {
    if s.open.full == [] then s else Ended(s)
  }

  datatype Event = Wrote(chunk: Bytes) | Closed

  function History(events: seq<Event>): Split {
    if events == [] then START
    else
      var before := History(events[..|events| - 1]);
      match events[|events| - 1]
      case Wrote(chunk) => AfterWrite(before, chunk)
      case Closed => AfterClose(before)
  }

  lemma HistoryNext(events: seq<Event>, e: Event)
    ensures History(events + [e]) ==
            match e
            case Wrote(chunk) => AfterWrite(History(events), chunk)
            case Closed => AfterClose(History(events))
  {
    assert (events + [e])[..|events|] == events;
  }

  /** What is logged for a line. */
  function Rendered(line: Line): Bytes {
    if |line.full| <= MAX_LINE then line.full
    else if line.cut then line.full[..MAX_LINE]
    else line.full[..LIMIT] + MARK
  }

  function RenderedAll(lines: seq<Line>): (r: seq<Bytes>)
    ensures |r| == |lines| && forall k :: 0 <= k < |lines| ==> r[k] == Rendered(lines[k])
  {
    seq(|lines|, k requires 0 <= k < |lines| => Rendered(lines[k]))
  }

  lemma {:induction false} FeedAppend(s: Split, a: Bytes, b: Bytes)
    ensures FeedAll(s, a + b) == FeedAll(FeedAll(s, a), b)
    decreases |a|
  {
    if a == [] {
      assert a + b == b;
    } else {
      assert (a + b)[1..] == a[1..] + b;
      FeedAppend(Feed(s, a[0]), a[1..], b);
    }
  }

  /** Bytes without a delimiter extend the open line. */
  lemma {:induction false} FeedPlain(s: Split, a: Bytes)
    requires a != [] && forall k :: 0 <= k < |a| ==> !Delimiter(a[k])
    ensures FeedAll(s, a) == s.(open := s.open.(full := s.open.full + a), skip := false)
    decreases |a|
  {
    var t := Feed(s, a[0]);
    if |a| == 1 {
      assert a[1..] == [] && a == [a[0]];
      assert FeedAll(t, []) == t;
    } else {
      FeedPlain(t, a[1..]);
      assert s.open.full + a == s.open.full + [a[0]] + a[1..];
    }
  }

  /** A pending skip only matters to a line feed. */
  lemma Unskip(s: Split, b: Bytes)
    requires b != [] && !(s.skip && b[0] == LF)
    ensures FeedAll(s, b) == FeedAll(s.(skip := false), b)
  {
    assert Feed(s, b[0]) == Feed(s.(skip := false), b[0]);
  }

  /** A piece up to its delimiter ends one line. */
  lemma FeedLine(s: Split, b: Bytes, i: nat)
    requires !s.skip && i < |b| && Delimiter(b[i]) && forall k :: 0 <= k < i ==> !Delimiter(b[k])
    ensures FeedAll(s, b) == FeedAll(WithLine(s, b[..i], b[i]), b[i + 1..])
  {
    var line := b[..i];
    assert b == line + b[i..];
    FeedAppend(s, line, b[i..]);
    if i > 0 {
      FeedPlain(s, line);
    } else {
      assert s.open.full + line == s.open.full;
    }
    assert b[i..][1..] == b[i + 1..];
  }

  // ----- the writer

  /** appendBounded */
  function AppendBounded(buf: Bytes, b: Bytes): Bytes {
    if |buf| + |b| <= MAX_LINE then buf + b
    else if |buf| >= MAX_LINE then buf
    else if |buf| >= LIMIT then buf[..LIMIT] + MARK
    else if |b| < LIMIT - |buf| then buf + b + MARK
    else buf + b[..LIMIT - |buf|] + MARK
  }

  /** Appending a piece to a line's rendering renders the longer line, provided an exactly full line is cut. */
  lemma AppendRenders(line: Line, b: Bytes)
    requires |line.full| == MAX_LINE ==> line.cut
    requires line.cut ==> |line.full| >= MAX_LINE
    ensures AppendBounded(Rendered(line), b) == Rendered(line.(full := line.full + b))
  {
    var full := line.full + b;
    if b == [] {
      assert full == line.full;
    } else if |full| > MAX_LINE && |line.full| < MAX_LINE {
      if |line.full| < LIMIT {
        assert full[..LIMIT] == line.full + b[..LIMIT - |line.full|];
      } else {
        assert full[..LIMIT] == line.full[..LIMIT];
      }
    } else if |line.full| >= MAX_LINE {
      assert full[..LIMIT] == line.full[..LIMIT] && full[..MAX_LINE] == line.full[..MAX_LINE];
    }
  }

  lemma RenderedSnoc(lines: seq<Line>, line: Line)
    ensures RenderedAll(lines + [line]) == RenderedAll(lines) + [Rendered(line)]
  {}

  /** A line that is exactly full has been cut, and only full lines have. */
  predicate Settled(line: Line) {
    (|line.full| == MAX_LINE ==> line.cut) && (line.cut ==> |line.full| >= MAX_LINE)
  }

  class Writer {
    var buf: Bytes
    var skipNextLF: bool
    var logged: seq<Bytes>
    ghost var events: seq<Event>

    ghost predicate Shows(s: Split)
      reads this`buf, this`skipNextLF, this`logged
    {
      logged == RenderedAll(s.lines) && buf == Rendered(s.open) && skipNextLF == s.skip
    }

    /** The log and the buffer are what the history of writes and closes says. */
    ghost predicate Valid()
      reads this
    {
      Shows(History(events)) && Settled(History(events).open)
    }

    constructor ()
      ensures Valid() && events == [] && logged == []
    {
      buf, skipNextLF, logged, events := [], false, [], [];
    }

    method Append(b: Bytes)
      modifies this`buf
      ensures buf == AppendBounded(old(buf), b)
    {
      if |b| == 0 {
        return;
      }
      if |buf| + |b| <= MAX_LINE {
        buf := buf + b;
        return;
      }
      if |buf| >= MAX_LINE {
        return;
      }
      var limit := if MAX_LINE - |MARK| >= 0 then MAX_LINE - |MARK| else 0;
      buf := buf[..if |buf| <= limit then |buf| else limit];
      var remaining := limit - |buf|;
      if remaining > 0 {
        if remaining > |b| {
          remaining := |b|;
        }
        buf := buf + b[..remaining];
      }
      buf := buf + MARK;
    }

    method Log()
      modifies this`logged, this`buf
      ensures logged == old(logged) + [old(buf)] && buf == []
    {
      logged := logged + [buf];
      buf := [];
    }

    /** A piece that a delimiter ends completes the open line. */
    method EndLine(piece: Bytes, delim: Byte, ghost s: Split)
      requires Shows(s) && Settled(s.open)
      modifies this`buf, this`logged, this`skipNextLF
      ensures Shows(WithLine(s, piece, delim))
    {
      AppendRenders(s.open, piece);
      Append(piece);
      RenderedSnoc(s.lines, s.open.(full := s.open.full + piece));
      Log();
      skipNextLF := delim == CR;
    }

    /** A piece without a delimiter extends the open line. */
    method Extend(piece: Bytes, ghost s: Split)
      requires Shows(s) && Settled(s.open) && !s.skip
      requires piece != [] && forall k :: 0 <= k < |piece| ==> !Delimiter(piece[k])
      modifies this`buf
      ensures Shows(FeedAll(s, piece))
      ensures FeedAll(s, piece).open.cut ==> |FeedAll(s, piece).open.full| >= MAX_LINE
    {
      FeedPlain(s, piece);
      AppendRenders(s.open, piece);
      Append(piece);
    }

    /** The line feed of a CR LF pair is dropped, even at the start of a later write. */
    method SkipLF(b: Bytes, ghost s: Split) returns (left: Bytes)
      requires Shows(s) && b != []
      modifies this`skipNextLF
      ensures Shows(s.(skip := false)) && |left| <= |b|
      ensures FeedAll(s, b) == FeedAll(s.(skip := false), left)
    {
      left := b;
      if skipNextLF && b[0] == LF {
        left := b[1..];
      } else {
        Unskip(s, b);
      }
      skipNextLF := false;
    }

    method Write(p: Bytes) returns (n: nat)
      requires Valid()
      modifies this
      ensures Valid() && n == |p|
      ensures events == old(events) + [Wrote(p)]
    {
      n := |p|;
      var b := p;
      ghost var s := History(events);
      ghost var target := FeedAll(s, p);
      while |b| > 0
        invariant Shows(s) && Settled(s.open) && FeedAll(s, b) == target
        invariant events == old(events)
        decreases |b|
      {
        b := SkipLF(b, s);
        s := s.(skip := false);
        if |b| == 0 {
          break;
        }
        var idx := FirstDelimiter(b);
        if idx == |b| {
          Extend(b, s);
          s := target;
          break;
        }
        FeedLine(s, b, idx);
        EndLine(b[..idx], b[idx], s);
        s := WithLine(s, b[..idx], b[idx]);
        b := b[idx + 1..];
      }
      HistoryNext(events, Wrote(p));
      events := events + [Wrote(p)];
    }

    /** An unended line is logged unless it is empty. */
    method Flush(ghost s: Split)
      requires Shows(s)
      modifies this`buf, this`logged
      ensures Shows(AfterClose(s))
    {
      RenderedEmpty(s.open);
      if |buf| > 0 {
        RenderedSnoc(s.lines, s.open);
        Log();
      }
      buf := [];
    }

    method Close()
      requires Valid()
      modifies this
      ensures Valid() && events == old(events) + [Closed]
    {
      Flush(History(events));
      HistoryNext(events, Closed);
      events := events + [Closed];
    }
  }

  /** Only the empty line renders to nothing. */
  lemma RenderedEmpty(line: Line)
    ensures Rendered(line) == [] <==> line.full == []
  {}

  // ----- the history is the reference split of the concatenation

  function Fulls(lines: seq<Line>): (r: seq<Bytes>)
    ensures |r| == |lines| && forall k :: 0 <= k < |lines| ==> r[k] == lines[k].full
  {
    seq(|lines|, k requires 0 <= k < |lines| => lines[k].full)
  }

  /** The byte-wise split computes the reference split. */
  lemma {:induction false} FeedIsSplit(s: Split, t: Bytes)
    requires !s.skip && s.open.full == []
    ensures
      var r, (lines, rest) := FeedAll(s, t), SplitText(t);
      Fulls(r.lines) == Fulls(s.lines) + lines && r.open.full == rest
    decreases |t|
  {
    var i := FirstDelimiter(t);
    if i == |t| {
      if t != [] {
        FeedPlain(s, t);
      }
    } else {
      FeedBeyond(s, t, i);
      LineAdded(s, t[..i], t[i]);
      FeedIsSplit(WithLine(s, t[..i], t[i]).(skip := false), Beyond(t, i));
      assert Fulls(s.lines) + [t[..i]] + SplitText(Beyond(t, i)).0 == Fulls(s.lines) + SplitText(t).0;
    }
  }

  lemma FeedBeyond(s: Split, t: Bytes, i: nat)
    requires !s.skip && i < |t| && i == FirstDelimiter(t)
    ensures
      var r, q := FeedAll(s, t), FeedAll(WithLine(s, t[..i], t[i]).(skip := false), Beyond(t, i));
      r.lines == q.lines && r.open == q.open
  {
    FeedLine(s, t, i);
    var next, after := WithLine(s, t[..i], t[i]), t[i + 1..];
    AfterDelimiter(next, after);
    assert Beyond(t, i) == AfterPair(next, after);
  }

  /** What is left once a pending skip has dropped its line feed. */
  function AfterPair(s: Split, b: Bytes): Bytes { if s.skip && b != [] && b[0] == LF then b[1..] else b }

  /** A pending skip drops one line feed and is otherwise without effect on the lines. */
  lemma AfterDelimiter(s: Split, b: Bytes)
    ensures
      var r, q := FeedAll(s, b), FeedAll(s.(skip := false), AfterPair(s, b));
      r.lines == q.lines && r.open == q.open
  {
    if b != [] && !(s.skip && b[0] == LF) {
      Unskip(s, b);
    }
  }

  lemma LineAdded(s: Split, piece: Bytes, delim: Byte)
    requires s.open.full == []
    ensures Fulls(WithLine(s, piece, delim).lines) == Fulls(s.lines) + [piece]
  {
    assert s.open.full + piece == piece;
  }

  /** Equal but for the cuts. */
  ghost predicate Same(s: Split, t: Split) {
    Fulls(s.lines) == Fulls(t.lines) && s.open.full == t.open.full && s.skip == t.skip
  }

  lemma FeedSame(s: Split, t: Split, c: Byte)
    requires Same(s, t)
    ensures Same(Feed(s, c), Feed(t, c))
  {
    assert Fulls(s.lines + [s.open]) == Fulls(s.lines) + [s.open.full];
    assert Fulls(t.lines + [t.open]) == Fulls(t.lines) + [t.open.full];
  }

  lemma {:induction false} FeedAllSame(s: Split, t: Split, b: Bytes)
    requires Same(s, t)
    ensures Same(FeedAll(s, b), FeedAll(t, b))
    decreases |b|
  {
    if b != [] {
      FeedSame(s, t, b[0]);
      FeedAllSame(Feed(s, b[0]), Feed(t, b[0]), b[1..]);
    }
  }

  ghost predicate OnlyWrites(events: seq<Event>) {
    forall i :: 0 <= i < |events| ==> events[i].Wrote?
  }

  /** Everything written, in order. */
  function Text(events: seq<Event>): Bytes
  {
    if events == [] then []
    else
      var last := events[|events| - 1];
      Text(events[..|events| - 1]) + if last.Wrote? then last.chunk else []
  }

  lemma {:induction false} HistoryIsFeed(events: seq<Event>)
    requires OnlyWrites(events)
    ensures Same(History(events), FeedAll(START, Text(events)))
    decreases |events|
  {
    if events != [] {
      var before, chunk := events[..|events| - 1], events[|events| - 1].chunk;
      HistoryIsFeed(before);
      FeedAllSame(History(before), FeedAll(START, Text(before)), chunk);
      FeedAppend(START, Text(before), chunk);
      assert Same(EndWrite(FeedAll(History(before), chunk)), FeedAll(History(before), chunk));
    }
  }

  /** How the input is cut into writes does not matter to which lines there are. */
  lemma HistoryIsSplit(events: seq<Event>)
    requires OnlyWrites(events)
    ensures
      var h, (lines, rest) := History(events), SplitText(Text(events));
      Fulls(h.lines) == lines && h.open.full == rest
  {
    HistoryIsFeed(events);
    FeedIsSplit(START, Text(events));
    assert Fulls(START.lines) + SplitText(Text(events)).0 == SplitText(Text(events)).0;
  }

  /** The lines of a text, with an unended last line counted when it is not empty. */
  function AllLines(t: Bytes): seq<Bytes> {
    var (lines, rest) := SplitText(t);
    if rest == [] then lines else lines + [rest]
  }

  /** What has been logged once the writer is closed: one entry per line of the concatenation, in order, each
      the line itself, its first 4096 bytes, or a fixed prefix and the marker, and never over 4096 bytes. */
  lemma ClosedLog(events: seq<Event>)
    requires OnlyWrites(events)
    ensures
      var log, all := RenderedAll(History(events + [Closed]).lines), AllLines(Text(events));
      && |log| == |all|
      && (forall k :: 0 <= k < |all| ==> OneOf(log[k], all[k]))
      && ((forall k :: 0 <= k < |all| ==> |all[k]| <= MAX_LINE) ==> log == all)
  {
    var h := History(events);
    assert (events + [Closed])[..|events|] == events;
    HistoryIsSplit(events);
    assert Fulls(AfterClose(h).lines) == AllLines(Text(events)) by {
      assert Fulls(h.lines + [h.open]) == Fulls(h.lines) + [h.open.full];
    }
  }

  predicate OneOf(logged: Bytes, full: Bytes) {
    && |logged| <= MAX_LINE
    && (if |full| <= MAX_LINE then logged == full
        else logged == full[..MAX_LINE] || logged == full[..LIMIT] + MARK)
  }

  // ----- which of the two forms a long line gets

  /** The `k`-th line of a history, ended or still open. */
  function Entry(s: Split, k: nat): Line
    requires k <= |s.lines|
  {
    if k < |s.lines| then s.lines[k] else s.open
  }

  /** Feeding bytes keeps ended lines and the open line's cut; later lines start uncut. */
  lemma {:induction false} FeedEntries(s: Split, b: Bytes, k: nat)
    requires k <= |FeedAll(s, b).lines|
    ensures |s.lines| <= |FeedAll(s, b).lines|
    ensures Entry(FeedAll(s, b), k).cut == (k <= |s.lines| && Entry(s, k).cut)
    decreases |b|
  {
    if b != [] {
      FeedEntries(Feed(s, b[0]), b[1..], k);
    }
  }

  ghost predicate CutAt(events: seq<Event>, n: nat, k: nat)
    requires n <= |events|
  {
    var (lines, rest) := SplitText(Text(events[..n]));
    |lines| == k && |rest| == MAX_LINE
  }

  /** A line is cut exactly when some write ended with precisely its first 4096 bytes received; so whether an
      over-long line keeps 4096 bytes or gets the marker depends only on where the writes end. */
  lemma {:induction false} CutIff(events: seq<Event>, k: nat)
    requires OnlyWrites(events) && k <= |History(events).lines|
    ensures Entry(History(events), k).cut <==> exists n: nat :: n <= |events| && CutAt(events, n, k)
    decreases |events|
  {
    HistoryIsSplit(events);
    assert events[..|events|] == events;
    if events == [] {
      assert !CutAt(events, 0, k);
    } else {
      var before, chunk := events[..|events| - 1], events[|events| - 1].chunk;
      FeedEntries(History(before), chunk, k);
      CutSooner(events, before, k);
      if k <= |History(before).lines| {
        CutIff(before, k);
      } else {
        NotYetCut(before, k);
      }
    }
  }

  /** A cut comes at the last write or earlier. */
  lemma CutSooner(events: seq<Event>, before: seq<Event>, k: nat)
    requires events != [] && before == events[..|events| - 1]
    ensures (exists n: nat :: n <= |events| && CutAt(events, n, k))
       <==> CutAt(events, |events|, k) || exists n: nat :: n <= |before| && CutAt(before, n, k)
  {
    forall n: nat | n <= |before| ensures CutAt(events, n, k) == CutAt(before, n, k) {
      assert events[..n] == before[..n];
    }
  }

  /** A line that has not begun is not cut. */
  lemma NotYetCut(events: seq<Event>, k: nat)
    requires OnlyWrites(events) && k > |History(events).lines|
    ensures !exists n: nat :: n <= |events| && CutAt(events, n, k)
  {
    forall n: nat | n <= |events| ensures !CutAt(events, n, k) {
      LinesGrow(events, n);
    }
  }

  lemma {:induction false} LinesGrow(events: seq<Event>, n: nat)
    requires OnlyWrites(events) && n <= |events|
    ensures |SplitText(Text(events[..n])).0| <= |History(events).lines|
    decreases |events|
  {
    if n == |events| {
      assert events[..n] == events;
      HistoryIsSplit(events);
    } else {
      var before, chunk := events[..|events| - 1], events[|events| - 1].chunk;
      LinesGrow(before, n);
      assert events[..n] == before[..n];
      FeedEntries(History(before), chunk, 0);
    }
  }

  /** Both forms occur for every over-long line: arriving in one write it gets the marker, arriving in two of which the
      first ends at its 4096th byte it does not. */
  lemma FormDependsOnCut(line: Bytes)
    requires |line| > MAX_LINE && forall k :: 0 <= k < |line| ==> !Delimiter(line[k])
    ensures
      var whole, halves := [Wrote(line)], [Wrote(line[..MAX_LINE]), Wrote(line[MAX_LINE..])];
      && Text(whole) == Text(halves) == line
      && RenderedAll(History(whole + [Closed]).lines) == [line[..LIMIT] + MARK]
      && RenderedAll(History(halves + [Closed]).lines) == [line[..MAX_LINE]]
  {
    var a, b := line[..MAX_LINE], line[MAX_LINE..];
    assert line == a + b;
    WrittenWhole(line);
    WrittenInHalves(line, a, b);
    ClosedOne([Wrote(line)], Line(line, false));
    ClosedOne([Wrote(a), Wrote(b)], Line(line, true));
    TextOf(line, a, b);
  }

  lemma WrittenWhole(line: Bytes)
    requires |line| > MAX_LINE && forall k :: 0 <= k < |line| ==> !Delimiter(line[k])
    ensures History([Wrote(line)]) == START.(open := Line(line, false))
  {
    assert [Wrote(line)] == [] + [Wrote(line)];
    HistoryNext([], Wrote(line));
    OneLine(START, line);
    assert [] + line == line;
  }

  lemma WrittenInHalves(line: Bytes, a: Bytes, b: Bytes)
    requires line == a + b && |a| == MAX_LINE && b != [] && forall k :: 0 <= k < |line| ==> !Delimiter(line[k])
    ensures History([Wrote(a), Wrote(b)]) == START.(open := Line(line, true))
  {
    assert [Wrote(a)] == [] + [Wrote(a)] && [Wrote(a), Wrote(b)] == [Wrote(a)] + [Wrote(b)];
    assert forall k :: 0 <= k < |a| ==> a[k] == line[k];
    assert forall k :: 0 <= k < |b| ==> b[k] == line[|a| + k];
    HistoryNext([], Wrote(a));
    OneLine(START, a);
    assert [] + a == a;
    HistoryNext([Wrote(a)], Wrote(b));
    OneLine(START.(open := Line(a, true)), b);
  }

  lemma ClosedOne(events: seq<Event>, line: Line)
    requires History(events) == START.(open := line) && line.full != []
    ensures RenderedAll(History(events + [Closed]).lines) == [Rendered(line)]
  {
    HistoryNext(events, Closed);
    assert [] + [line] == [line];
  }

  lemma OneLine(s: Split, chunk: Bytes)
    requires !s.skip && chunk != [] && forall k :: 0 <= k < |chunk| ==> !Delimiter(chunk[k])
    ensures
      var full := s.open.full + chunk;
      AfterWrite(s, chunk) == s.(open := Line(full, s.open.cut || |full| == MAX_LINE))
  {
    FeedPlain(s, chunk);
  }

  lemma TextOf(line: Bytes, a: Bytes, b: Bytes)
    requires line == a + b
    ensures Text([Wrote(line)]) == line && Text([Wrote(a), Wrote(b)]) == line
  {
    assert [Wrote(line)][..0] == [] && [Wrote(a), Wrote(b)][..1] == [Wrote(a)] && [Wrote(a)][..0] == [];
    assert Text([Wrote(line)]) == Text([]) + line;
    assert Text([Wrote(a)]) == Text([]) + a == a;
    assert Text([Wrote(a), Wrote(b)]) == Text([Wrote(a)]) + b;
  }

  // ----- the reference split, pinned

  /** The delimiters after the ended lines of a text. */
  function Delimiters(t: Bytes): seq<Bytes>
    decreases |t|
  {
    var i := FirstDelimiter(t);
    if i == |t| then [] else [t[i..|t| - |Beyond(t, i)|]] + Delimiters(Beyond(t, i))
  }

  ghost predicate Clean(b: Bytes) {
    forall k :: 0 <= k < |b| ==> b[k] != 13 && b[k] != 10
  }

  /** `t` begins with a clean line and a delimiter; a CR directly before an LF is no delimiter by itself. */
  ghost predicate Begins(t: Bytes, line: Bytes, delim: Bytes) {
    var n := |line| + |delim|;
    && n <= |t| && t[..|line|] == line && t[|line|..n] == delim && Clean(line)
    && (delim == [13] || delim == [10] || delim == [13, 10])
    && (delim == [13] && n < |t| ==> t[n] != 10)
  }

  /** `t` is these lines, each with its delimiter, and then a rest without CR or LF. */
  ghost predicate Cuts(lines: seq<Bytes>, delims: seq<Bytes>, rest: Bytes, t: Bytes)
    decreases |lines|
  {
    && |lines| == |delims|
    && if lines == [] then rest == t && Clean(rest)
       else Begins(t, lines[0], delims[0]) && Cuts(lines[1..], delims[1..], rest, t[|lines[0]| + |delims[0]|..])
  }

  lemma CutsCons(line: Bytes, delim: Bytes, lines: seq<Bytes>, delims: seq<Bytes>, rest: Bytes, t: Bytes)
    requires Begins(t, line, delim) && Cuts(lines, delims, rest, t[|line| + |delim|..])
    ensures Cuts([line] + lines, [delim] + delims, rest, t)
  {
    assert ([line] + lines)[1..] == lines && ([delim] + delims)[1..] == delims;
  }

  lemma FirstBegins(t: Bytes, i: nat)
    requires i == FirstDelimiter(t) < |t|
    ensures
      var delim := t[i..|t| - |Beyond(t, i)|];
      Begins(t, t[..i], delim) && t[i + |delim|..] == Beyond(t, i)
  {
    var next := Beyond(t, i);
    assert t[i..i + 1] == [t[i]];
    if |next| == |t| - i - 2 {
      assert t[i..i + 2] == [t[i], t[i + 1]];
    }
  }

  /** The split cuts the text into lines without CR or LF, each followed by CR LF, CR or LF, and a rest without
      either. */
  lemma {:induction false} SplitIs(t: Bytes)
    ensures Cuts(SplitText(t).0, Delimiters(t), SplitText(t).1, t)
    decreases |t|
  {
    var i := FirstDelimiter(t);
    if i < |t| {
      var next := Beyond(t, i);
      SplitIs(next);
      FirstBegins(t, i);
      CutsCons(t[..i], t[i..|t| - |next|], SplitText(next).0, Delimiters(next), SplitText(next).1, t);
    }
  }

  lemma BeginsAtFirst(t: Bytes, line: Bytes, delim: Bytes)
    requires Begins(t, line, delim)
    ensures FirstDelimiter(t) == |line| < |t| && t[..|line|] == line && t[|line| + |delim|..] == Beyond(t, |line|)
  {
    assert t[|line|] == delim[0];
    forall k | 0 <= k < |line| ensures t[k] == line[k] {}
    if delim == [13, 10] {
      assert t[|line| + 1] == delim[1];
    }
  }

  /** There is only one such cut. */
  lemma {:induction false} OnlyOneCut(lines: seq<Bytes>, delims: seq<Bytes>, rest: Bytes, t: Bytes)
    requires Cuts(lines, delims, rest, t)
    ensures SplitText(t) == (lines, rest)
    decreases |lines|
  {
    if lines != [] {
      BeginsAtFirst(t, lines[0], delims[0]);
      OnlyOneCut(lines[1..], delims[1..], rest, Beyond(t, |lines[0]|));
      assert lines == [lines[0]] + lines[1..];
    } else {
      assert FirstDelimiter(t) == |t|;
    }
  }
}
