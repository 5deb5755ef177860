/**
 The high-entropy redactor (internal/gateway/detect.go): 20-rune windows that look random are
 replaced, and the output is only allocated once something has been replaced. Entropy itself
 stays abstract: `hot` says whether a window meets the threshold.
 */
module Redactor {
  import opened Options

  type Rune = int

  const WINDOW: nat := 20

  predicate HotAt(runes: seq<Rune>, hot: seq<Rune> -> bool, p: nat) {
    p + WINDOW <= |runes| && hot(runes[p..p + WINDOW])
  }

  /** The eager redactor: every position is decided as it is met. */
  function Eager(runes: seq<Rune>, hot: seq<Rune> -> bool, marker: seq<Rune>, pos: nat): seq<Rune>
    requires pos <= |runes|
    decreases |runes| - pos
  {
    if pos + WINDOW > |runes| then runes[pos..]
    else if HotAt(runes, hot, pos) then marker + Eager(runes, hot, marker, pos + WINDOW)
    else [runes[pos]] + Eager(runes, hot, marker, pos + 1)
  }

  /** The program's loop, with its lazily allocated output. */
  method Redact(runes: seq<Rune>, hot: seq<Rune> -> bool, marker: seq<Rune>) returns (result: seq<Rune>)
    ensures result == Eager(runes, hot, marker, 0)
  {
    if |runes| < WINDOW {
      return runes;
    }
    var out: Option<seq<Rune>> := None;
    var pos := 0;
    while pos + WINDOW <= |runes|
      invariant pos <= |runes|
      invariant Eager(runes, hot, marker, 0) ==
                (if out.Some? then out.value else runes[..pos]) + Eager(runes, hot, marker, pos)
    {
      if hot(runes[pos..pos + WINDOW]) {
        if out.None? {
          out := Some(runes[..pos]);
        }
        Assoc(out.value, marker, Eager(runes, hot, marker, pos + WINDOW));
        out := Some(out.value + marker);
        pos := pos + WINDOW;
      } else {
        Assoc(if out.Some? then out.value else runes[..pos], [runes[pos]], Eager(runes, hot, marker, pos + 1));
        if out.Some? {
          out := Some(out.value + [runes[pos]]);
        }
        assert runes[..pos + 1] == runes[..pos] + [runes[pos]];
        pos := pos + 1;
      }
    }
    if out.None? {
      assert runes == runes[..pos] + runes[pos..];
      return runes;
    }
    result := out.value + runes[pos..];
  }

  lemma Assoc(a: seq<Rune>, b: seq<Rune>, c: seq<Rune>)
    ensures a + (b + c) == (a + b) + c
  {}

  // ----- what is replaced

  /** The text cut into literal runes and replaced windows. */
  datatype Piece = Literal(rune: Rune) | Replaced(window: seq<Rune>)

  function Pieces(runes: seq<Rune>, hot: seq<Rune> -> bool, pos: nat): seq<Piece>
    requires pos <= |runes|
    decreases |runes| - pos
  {
    if pos == |runes| then []
    else if HotAt(runes, hot, pos) then [Replaced(runes[pos..pos + WINDOW])] + Pieces(runes, hot, pos + WINDOW)
    else [Literal(runes[pos])] + Pieces(runes, hot, pos + 1)
  }

  /** How many runes of the text a piece takes up. */
  function Width(p: Piece): nat { if p.Literal? then 1 else |p.window| }

  /** Where the replaced windows start in the text, when the pieces start at `pos`. */
  function Starts(pieces: seq<Piece>, pos: nat): seq<nat> {
    if pieces == [] then []
    else (if pieces[0].Replaced? then [pos] else []) + Starts(pieces[1..], pos + Width(pieces[0]))
  }

  /** What the pieces were, and what they become. */
  function Original(pieces: seq<Piece>): seq<Rune> {
    if pieces == [] then []
    else (match pieces[0] case Literal(r) => [r] case Replaced(w) => w) + Original(pieces[1..])
  }

  function Output(pieces: seq<Piece>, marker: seq<Rune>): seq<Rune> {
    if pieces == [] then []
    else (match pieces[0] case Literal(r) => [r] case Replaced(_) => marker) + Output(pieces[1..], marker)
  }

  lemma {:induction false} TailIsVerbatim(runes: seq<Rune>, hot: seq<Rune> -> bool, marker: seq<Rune>, pos: nat)
    requires pos <= |runes| < pos + WINDOW
    ensures Output(Pieces(runes, hot, pos), marker) == runes[pos..]
    decreases |runes| - pos
  {
    if pos < |runes| {
      TailIsVerbatim(runes, hot, marker, pos + 1);
      Unroll(Literal(runes[pos]), Pieces(runes, hot, pos + 1), marker);
    }
  }

  lemma Unroll(p: Piece, rest: seq<Piece>, marker: seq<Rune>)
    ensures Output([p] + rest, marker) == (match p case Literal(r) => [r] case Replaced(_) => marker) +
            Output(rest, marker)
    ensures Original([p] + rest) == (match p case Literal(r) => [r] case Replaced(w) => w) + Original(rest)
  {
    assert ([p] + rest)[1..] == rest;
  }

  /** The redactor splits the text into literal runes and qualifying windows, keeps the runes and replaces
      the windows: nothing is lost, reordered or added. */
  lemma {:induction false} EagerIsPiecewise(runes: seq<Rune>, hot: seq<Rune> -> bool, marker: seq<Rune>, pos: nat)
    requires pos <= |runes|
    ensures Original(Pieces(runes, hot, pos)) == runes[pos..]
    ensures Output(Pieces(runes, hot, pos), marker) == Eager(runes, hot, marker, pos)
    decreases |runes| - pos
  {
    if pos == |runes| {
    } else if HotAt(runes, hot, pos) {
      EagerIsPiecewise(runes, hot, marker, pos + WINDOW);
      Unroll(Replaced(runes[pos..pos + WINDOW]), Pieces(runes, hot, pos + WINDOW), marker);
      Cut(runes, pos, pos + WINDOW);
    } else {
      EagerIsPiecewise(runes, hot, marker, pos + 1);
      Unroll(Literal(runes[pos]), Pieces(runes, hot, pos + 1), marker);
      Cut(runes, pos, pos + 1);
      if pos + WINDOW > |runes| {
        TailIsVerbatim(runes, hot, marker, pos);
      }
    }
  }

  lemma Cut(runes: seq<Rune>, i: nat, j: nat)
    requires i <= j <= |runes|
    ensures runes[i..] == runes[i..j] + runes[j..]
    ensures j == i + 1 ==> runes[i..j] == [runes[i]]
  {}

  /** Only windows that qualify are replaced. */
  lemma {:induction false} ReplacedAreHot(runes: seq<Rune>, hot: seq<Rune> -> bool, pos: nat, p: Piece)
    requires pos <= |runes| && p in Pieces(runes, hot, pos) && p.Replaced?
    ensures |p.window| == 20 && hot(p.window)
    decreases |runes| - pos
  {
    if HotAt(runes, hot, pos) {
      if p != Replaced(runes[pos..pos + WINDOW]) {
        ReplacedAreHot(runes, hot, pos + WINDOW, p);
      }
    } else {
      ReplacedAreHot(runes, hot, pos + 1, p);
    }
  }

  /** The windows the redactor replaces, by their start in the text. */
  function ReplacedAt(runes: seq<Rune>, hot: seq<Rune> -> bool, pos: nat): seq<nat>
    requires pos <= |runes|
  {
    Starts(Pieces(runes, hot, pos), pos)
  }

  lemma StartsStep(runes: seq<Rune>, hot: seq<Rune> -> bool, pos: nat)
    requires pos < |runes|
    ensures ReplacedAt(runes, hot, pos) ==
            if HotAt(runes, hot, pos) then [pos] + ReplacedAt(runes, hot, pos + WINDOW)
            else ReplacedAt(runes, hot, pos + 1)
  {
    var pieces := Pieces(runes, hot, pos);
    if HotAt(runes, hot, pos) {
      assert pieces[1..] == Pieces(runes, hot, pos + WINDOW);
    } else {
      assert pieces[1..] == Pieces(runes, hot, pos + 1);
      assert [] + ReplacedAt(runes, hot, pos + 1) == ReplacedAt(runes, hot, pos + 1);
    }
  }

  /** Qualifying windows from `pos` on, in order and without overlap. */
  ghost predicate Spaced(runes: seq<Rune>, hot: seq<Rune> -> bool, pos: nat, starts: seq<nat>) {
    && (forall i :: 0 <= i < |starts| ==> pos <= starts[i] && HotAt(runes, hot, starts[i]))
    && (forall i, j :: 0 <= i < j < |starts| ==> starts[i] + WINDOW <= starts[j])
  }

  /** The replaced windows qualify, come in order and do not overlap. */
  lemma {:induction false} ReplacedAreSpaced(runes: seq<Rune>, hot: seq<Rune> -> bool, pos: nat)
    requires pos <= |runes|
    ensures Spaced(runes, hot, pos, ReplacedAt(runes, hot, pos))
    decreases |runes| - pos
  {
    if pos < |runes| {
      StartsStep(runes, hot, pos);
      if HotAt(runes, hot, pos) {
        ReplacedAreSpaced(runes, hot, pos + WINDOW);
        SpacedCons(runes, hot, pos, ReplacedAt(runes, hot, pos + WINDOW));
      } else {
        ReplacedAreSpaced(runes, hot, pos + 1);
      }
    }
  }

  lemma SpacedCons(runes: seq<Rune>, hot: seq<Rune> -> bool, pos: nat, rest: seq<nat>)
    requires HotAt(runes, hot, pos) && Spaced(runes, hot, pos + WINDOW, rest)
    ensures Spaced(runes, hot, pos, [pos] + rest)
  {}

  /** Every qualifying window overlaps a replaced one: it starts inside it. */
  lemma {:induction false} HotIsCovered(runes: seq<Rune>, hot: seq<Rune> -> bool, pos: nat, p: nat)
    requires pos <= p && p + 20 <= |runes| && hot(runes[p..p + 20])
    ensures exists q :: q in ReplacedAt(runes, hot, pos) && q <= p < q + 20
    decreases |runes| - pos
  {
    StartsStep(runes, hot, pos);
    if !HotAt(runes, hot, pos) {
      HotIsCovered(runes, hot, pos + 1, p);
    } else {
      var rest := ReplacedAt(runes, hot, pos + WINDOW);
      if p < pos + WINDOW {
        assert pos in [pos] + rest;
      } else {
        HotIsCovered(runes, hot, pos + WINDOW, p);
        var q :| q in rest && q <= p < q + WINDOW;
        assert q in [pos] + rest;
      }
    }
  }

  lemma {:induction false} NoneReplacedNoChange(pieces: seq<Piece>, marker: seq<Rune>, pos: nat)
    requires Starts(pieces, pos) == []
    ensures Output(pieces, marker) == Original(pieces)
    decreases |pieces|
  {
    if pieces != [] {
      assert pieces[0].Literal?;
      NoneReplacedNoChange(pieces[1..], marker, pos + 1);
    }
  }

  /** Nothing is replaced exactly when no window qualifies, and then the output is the input. */
  lemma NothingReplacedIff(runes: seq<Rune>, hot: seq<Rune> -> bool, marker: seq<Rune>)
    ensures ReplacedAt(runes, hot, 0) == [] <==> forall p: nat :: !HotAt(runes, hot, p)
    ensures ReplacedAt(runes, hot, 0) == [] ==> Eager(runes, hot, marker, 0) == runes
  {
    var starts := ReplacedAt(runes, hot, 0);
    ReplacedAreSpaced(runes, hot, 0);
    EagerIsPiecewise(runes, hot, marker, 0);
    if starts == [] {
      NoneReplacedNoChange(Pieces(runes, hot, 0), marker, 0);
      forall p: nat ensures !HotAt(runes, hot, p) {
        if HotAt(runes, hot, p) {
          HotIsCovered(runes, hot, 0, p);
        }
      }
    } else {
      var p: nat := starts[0];
      assert HotAt(runes, hot, p);
    }
  }
}
