/**
 What the dashboard grid promises beyond the absence of overlaps (internal/tools/grafana/panels.go,
 rows.go and recomputeRowPositions of grafana.go): the flow leaves no gaps, an export leaves none
 between rows, and no tool call loses or doubles a panel.
 */
module LayoutFlow {
  import opened Options
  import opened Layout

  // ----- the flow is greedy

  /** The lowest edge of the first `n` panels is `edge`. */
  ghost predicate LowestEdge(panels: seq<Panel>, n: nat, edge: int)
    requires n <= |panels|
  {
    && (forall i :: 0 <= i < n ==> panels[i].pos.Bottom() <= edge)
    && (exists i :: 0 <= i < n && panels[i].pos.Bottom() == edge)
  }

  /** A panel stands on the line of the one before it, directly right of that one, if the 24 columns have room for it;
      otherwise it starts a line directly below everything so far. */
  ghost predicate Follows(panels: seq<Panel>, k: nat)
    requires k + 1 < |panels|
  {
    var p, q := panels[k].pos, panels[k + 1].pos;
    if p.x + p.w + q.w <= 24 then q.x == p.x + p.w && q.y == p.y
    else q.x == 0 && LowestEdge(panels, k + 1, q.y)
  }

  /** The panels fill the lines from `top` on. */
  ghost predicate Greedy(panels: seq<Panel>, top: int) {
    && (panels != [] ==> panels[0].pos.x == 0 && panels[0].pos.y == top)
    && (forall k: nat {:trigger Follows(panels, k)} :: k + 1 < |panels| ==> Follows(panels, k))
  }

  /** The cursor is right of the last panel, on its line. */
  ghost predicate CursorAt(panels: seq<Panel>, nextX: int, lineTop: int, lineHeight: nat) {
    if panels == [] then nextX == 0 && lineHeight == 0
    else
      var last := panels[|panels| - 1].pos;
      && nextX == last.x + last.w && lineTop == last.y && lineHeight > 0
      && LowestEdge(panels, |panels|, lineTop + lineHeight)
  }

  ghost predicate TightRow(r: Row) {
    && r.y >= 0 && r.nextY > r.y && (r.panels == [] ==> r.nextY == r.y + 1)
    && Greedy(r.panels, r.y + 1) && CursorAt(r.panels, r.nextX, r.nextY, r.lineHeight)
  }

  ghost predicate TightRows(d: Dashboard) { d.nextY >= 0 && forall r :: r in d.rows ==> TightRow(r) }

  lemma LowestEdgeSnoc(panels: seq<Panel>, p: Panel, edge: int)
    requires LowestEdge(panels, |panels|, edge)
    ensures LowestEdge(panels + [p], |panels|, edge)
    ensures LowestEdge(panels + [p], |panels| + 1, Max(edge, p.pos.Bottom()))
  {
    var all := panels + [p];
    var i :| 0 <= i < |panels| && panels[i].pos.Bottom() == edge;
    assert all[i].pos.Bottom() == edge && all[|panels|].pos.Bottom() == p.pos.Bottom();
  }

  lemma GreedySnoc(panels: seq<Panel>, p: Panel, top: int)
    requires Greedy(panels, top) && panels != [] && Follows(panels + [p], |panels| - 1)
    ensures Greedy(panels + [p], top)
  {
    var all := panels + [p];
    forall k: nat | k + 1 < |all| ensures Follows(all, k) {
      if k + 1 < |panels| {
        assert Follows(panels, k);
        assert all[k] == panels[k] && all[k + 1] == panels[k + 1];
        assert forall i :: 0 <= i <= k ==> all[i] == panels[i];
        if panels[k].pos.x + panels[k].pos.w + panels[k + 1].pos.w > 24 {
          var i :| 0 <= i < k + 1 && panels[i].pos.Bottom() == panels[k + 1].pos.y;
          assert all[i].pos.Bottom() == all[k + 1].pos.y;
        }
      } else {
        assert k == |panels| - 1;
      }
    }
  }

  /** A panel put where the cursor says keeps the lines full. */
  lemma FlowStep(panels: seq<Panel>, p: Panel, top: int, nextX: int, lineTop: int, lineHeight: nat)
    requires Greedy(panels, top) && CursorAt(panels, nextX, lineTop, lineHeight) && 1 <= p.pos.w <= 24 && p.pos.h >= 1
    requires panels == [] ==> lineTop == top
    requires
      if nextX + p.pos.w <= 24 then p.pos.x == nextX && p.pos.y == lineTop
      else p.pos.x == 0 && p.pos.y == lineTop + lineHeight
    ensures Greedy(panels + [p], top)
    ensures CursorAt(panels + [p], p.pos.x + p.pos.w, p.pos.y,
                     if nextX + p.pos.w <= 24 then Max(lineHeight, p.pos.h) else p.pos.h)
  {
    var all := panels + [p];
    assert all[|all| - 1] == p;
    if panels == [] {
      assert all[0].pos.Bottom() == p.pos.y + p.pos.h;
    } else {
      LowestEdgeSnoc(panels, p, lineTop + lineHeight);
      assert all[|panels| - 1] == panels[|panels| - 1] && all[|panels|] == p;
      assert Follows(all, |panels| - 1);
      GreedySnoc(panels, p, top);
    }
  }

  lemma RowFlows(r: Row, top: int, id: nat, b: Box)
    requires TightRow(r) && Flows(b)
    ensures TightRow(RowPlacement(r, top, b).0.(panels := r.panels + [Panel(id, RowPlacement(r, top, b).1)]))
  {
    var (q, pos) := RowPlacement(r, top, b);
    FlowStep(r.panels, Panel(id, pos), r.y + 1, r.nextX, r.nextY, r.lineHeight);
  }

  /** Calls that take no panel out of a row and leave the placement in rows to the flow. */
  predicate FlowsInRows(op: Op) {
    match op
    case OpAddPanel(row, box) => row.Some? ==> Flows(box)
    case OpMovePanel(_, _, _, _) => false
    case OpDeletePanel(_) => false
    case _ => true
  }

  lemma NoNewRow(rows: seq<Row>, id: nat, before: Option<nat>, r: Row)
    requires RowMoved(rows, id, before).Some? && r in RowMoved(rows, id, before).value
    ensures r in rows
  {
    MovePermutes(rows, id, before);
    assert r in multiset(RowMoved(rows, id, before).value);
  }

  lemma TightStep(d: Dashboard, op: Op)
    requires TightRows(d) && FlowsInRows(op)
    ensures TightRows(Next(d, op))
  {
    var e := Next(d, op);
    forall r | r in e.rows ensures TightRow(r) {
      if r !in d.rows {
        if op.OpAddRow? {
          assert r == e.rows[|d.rows|];
        } else if op.OpMoveRow? {
          NoNewRow(d.rows, op.id, op.before, r);
          assert false;
        } else if op.OpCollapse? {
          assert d.rows[RowIndex(d.rows, op.id)] in d.rows;
          assert r == d.rows[RowIndex(d.rows, op.id)].(collapsed := op.collapsed);
        } else if op.OpAddPanel? {
          var i := Named(d, op.row).value.i;
          assert d.rows[i] in d.rows;
          RowFlows(d.rows[i], d.nextY, d.nextPanelId + 1, op.box);
        }
      }
    }
  }

  /** However rows and panels are added, moved, folded and deleted: each row's panels stand in the order they came in,
      each right of the one before or, where the columns have no room for it, at the left of a line of its own. */
  lemma {:induction false} RowsStayTight(d: Dashboard, ops: seq<Op>)
    requires TightRows(d) && forall i :: 0 <= i < |ops| ==> FlowsInRows(ops[i])
    ensures TightRows(Run(d, ops))
    decreases |ops|
  {
    if ops != [] {
      TightStep(d, ops[0]);
      RowsStayTight(Next(d, ops[0]), ops[1..]);
    }
  }

  /** The same at the top level, where NextY is the lowest edge. */
  ghost predicate TightTop(d: Dashboard) {
    && (d.panels == [] ==> d.nextY == 0)
    && Greedy(d.panels, 0) && CursorAt(d.panels, d.nextX, d.nextY - d.lineHeight, d.lineHeight)
  }

  lemma TopFlows(d: Dashboard, id: nat, b: Box)
    requires TightTop(d) && Flows(b)
    ensures TightTop(PutOnTop(d, id, b))
  {
    var (e, pos) := TopPlacement(d, b);
    FlowStep(d.panels, Panel(id, pos), 0, d.nextX, d.nextY - d.lineHeight, d.lineHeight);
  }

  lemma {:induction false} TopStaysTight(d: Dashboard, ops: seq<Op>)
    requires TightTop(d)
    requires forall i :: 0 <= i < |ops| ==> ops[i].OpAddPanel? && ops[i].row.None? && Flows(ops[i].box)
    ensures TightTop(Run(d, ops))
    decreases |ops|
  {
    if ops != [] {
      TopFlows(d, d.nextPanelId + 1, ops[0].box);
      TopStaysTight(Next(d, ops[0]), ops[1..]);
    }
  }

  /** An explicit column leaves a row's cursor where it is, and the panel goes to the cursor's line unless it has a y of
      its own; a row whose cursor was never set starts at the dashboard's extent. */
  lemma ExplicitInRow(r: Row, top: int, b: Box)
    ensures
      var (q, pos) := RowPlacement(r, top, b);
      && (r.nextY == 0 && b.x.Some? ==> q == r.(nextY := top))
      && (r.nextY != 0 && b.x.Some? ==> q == r)
      && (b.x.Some? ==> pos.x == b.x.value && (b.y.None? ==> pos.y == q.nextY))
      && (b.x.None? && r.nextY == 0 && r.nextX + b.w <= 24 ==> q.nextY == top)
      && (b.y.Some? ==> pos.y == b.y.value)
  {}

  /** At the top level it leaves the cursor's column, but the line grows to the panel and the extent covers it. */
  lemma ExplicitOnTop(d: Dashboard, b: Box)
    requires b.x.Some?
    ensures
      var (e, pos) := TopPlacement(d, b);
      && e.nextX == d.nextX && e.lineHeight >= d.lineHeight && e.lineHeight >= b.h
      && (e.lineHeight == d.lineHeight || e.lineHeight == b.h)
      && e.nextY >= d.nextY && e.nextY >= pos.y + pos.h && (e.nextY == d.nextY || e.nextY == pos.y + pos.h)
      && pos == Pos(b.x.value, if b.y.Some? then b.y.value else d.nextY - d.lineHeight, b.w, b.h)
  {}

  // ----- the export is tight

  /** Where a row shown at `y` ends. */
  lemma EndsAt(r: Row, y: int)
    ensures
      var c := At(r, y);
      && (c.collapsed ==> y + Span(r) == y + 1)
      && (!c.collapsed && y + Span(r) != y + 1 ==> LowestEdge(c.panels, |c.panels|, y + Span(r)))
  {
    SpanIs(r, y);
    if !r.collapsed {
      LowestAttained(At(r, y).panels, y + 1);
    }
  }

  /** An export starts at the top, and the next header touches what is above it: the header before, or the lowest
      visible panel under that. */
  lemma NextHeaderTouches(rows: seq<Row>, i: nat)
    requires i + 1 < |rows|
    ensures
      var q := Recomputed(rows, 0);
      && q[0].y == 0
      && (q[i].collapsed ==> q[i + 1].y == q[i].y + 1)
      && (!q[i].collapsed && q[i + 1].y != q[i].y + 1 ==> LowestEdge(q[i].panels, |q[i].panels|, q[i + 1].y))
  {
    RecomputedIs(rows, 0, 0);
    RecomputedIs(rows, 0, i);
    RecomputedIs(rows, 0, i + 1);
    EndsAt(rows[i], HeaderAt(rows, 0, i));
    assert HeaderAt(rows, 0, 0) == 0;
  }

  // ----- no panel is lost or doubled

  /** How many of the panels have the id. */
  function CountIn(panels: seq<Panel>, id: nat): nat {
    if panels == [] then 0 else (if panels[0].id == id then 1 else 0) + CountIn(panels[1..], id)
  }

  function CountInRows(rows: seq<Row>, id: nat): nat {
    if rows == [] then 0 else CountIn(rows[0].panels, id) + CountInRows(rows[1..], id)
  }

  /** How many panels of a dashboard have the id, wherever they are. */
  function Count(d: Dashboard, id: nat): nat { CountIn(d.panels, id) + CountInRows(d.rows, id) }

  lemma {:induction false} CountJoins(a: seq<Panel>, b: seq<Panel>, id: nat)
    ensures CountIn(a + b, id) == CountIn(a, id) + CountIn(b, id)
    decreases |a|
  {
    if a == [] {
      assert a + b == b;
    } else {
      assert (a + b)[1..] == a[1..] + b;
      CountJoins(a[1..], b, id);
    }
  }

  lemma {:induction false} RowCountJoins(a: seq<Row>, b: seq<Row>, id: nat)
    ensures CountInRows(a + b, id) == CountInRows(a, id) + CountInRows(b, id)
    decreases |a|
  {
    if a == [] {
      assert a + b == b;
    } else {
      assert (a + b)[1..] == a[1..] + b;
      RowCountJoins(a[1..], b, id);
    }
  }

  lemma CountOne(p: Panel, id: nat)
    ensures CountIn([p], id) == if p.id == id then 1 else 0
  {
    assert [p][1..] == [];
  }

  lemma CountWithout(panels: seq<Panel>, k: nat, id: nat)
    requires k < |panels|
    ensures CountIn(panels, id) == CountIn(Without(panels, k), id) + (if panels[k].id == id then 1 else 0)
  {
    var before, after := panels[..k], panels[k + 1..];
    assert panels == (before + [panels[k]]) + after;
    CountJoins(before + [panels[k]], after, id);
    CountJoins(before, [panels[k]], id);
    CountJoins(before, after, id);
    CountOne(panels[k], id);
  }

  lemma RowCountInserts(rows: seq<Row>, i: nat, r: Row, id: nat)
    requires i <= |rows|
    ensures CountInRows(InsertAt(rows, i, r), id) == CountInRows(rows, id) + CountIn(r.panels, id)
  {
    RowCountJoins(rows[..i] + [r], rows[i..], id);
    RowCountJoins(rows[..i], [r], id);
    RowCountJoins(rows[..i], rows[i..], id);
    assert rows == rows[..i] + rows[i..];
    assert [r][1..] == [];
  }

  lemma RowCountWithout(rows: seq<Row>, i: nat, id: nat)
    requires i < |rows|
    ensures CountInRows(rows, id) == CountInRows(Without(rows, i), id) + CountIn(rows[i].panels, id)
  {
    RowCountInserts(Without(rows, i), i, rows[i], id);
    assert InsertAt(Without(rows, i), i, rows[i]) == rows;
  }

  lemma RowCountUpdates(rows: seq<Row>, i: nat, r: Row, id: nat)
    requires i < |rows|
    ensures CountInRows(rows[i := r], id) + CountIn(rows[i].panels, id) ==
            CountInRows(rows, id) + CountIn(r.panels, id)
  {
    RowCountWithout(rows, i, id);
    RowCountWithout(rows[i := r], i, id);
    assert Without(rows[i := r], i) == Without(rows, i);
  }

  lemma PutCounts(d: Dashboard, at: Place, panel: nat, b: Box, id: nat)
    requires Exists(d, at)
    ensures Count(PutIn(d, at, panel, b), id) == Count(d, id) + (if panel == id then 1 else 0)
  {
    var p := Panel(panel, if at.TopLevel? then TopPlacement(d, b).1 else RowPlacement(d.rows[at.i], d.nextY, b).1);
    CountJoins(PanelsOf(d, at), [p], id);
    CountOne(p, id);
    if at.InRow? {
      RowCountUpdates(d.rows, at.i, PutIn(d, at, panel, b).rows[at.i], id);
    }
  }

  lemma TakeOutCounts(d: Dashboard, at: Place, k: nat, id: nat)
    requires Exists(d, at) && k < |PanelsOf(d, at)|
    ensures Count(d, id) == Count(TakeOut(d, at, k), id) + (if PanelsOf(d, at)[k].id == id then 1 else 0)
  {
    CountWithout(PanelsOf(d, at), k, id);
    if at.InRow? {
      RowCountUpdates(d.rows, at.i, TakeOut(d, at, k).rows[at.i], id);
    }
  }

  lemma {:induction false} CountedIn(panels: seq<Panel>, k: nat, id: nat)
    requires k <= |panels|
    ensures CountIn(panels[k..], id) > 0 <==> PanelFrom(panels, id, k) >= 0
    decreases |panels| - k
  {
    if k < |panels| {
      assert panels[k..][1..] == panels[k + 1..];
      CountedIn(panels, k + 1, id);
    }
  }

  lemma {:induction false} CountedInRows(rows: seq<Row>, k: nat, id: nat)
    requires k <= |rows|
    ensures CountInRows(rows[k..], id) > 0 <==> HolderFrom(rows, id, k) >= 0
    decreases |rows| - k
  {
    if k < |rows| {
      assert rows[k..][1..] == rows[k + 1..];
      CountedIn(rows[k].panels, 0, id);
      assert rows[k].panels[0..] == rows[k].panels;
      CountedInRows(rows, k + 1, id);
    }
  }

  /** A panel can be found exactly when it is somewhere. */
  lemma FoundIffCounted(d: Dashboard, id: nat)
    ensures Holder(d, id).Some? <==> Count(d, id) > 0
  {
    CountedIn(d.panels, 0, id);
    CountedInRows(d.rows, 0, id);
    assert d.panels[0..] == d.panels && d.rows[0..] == d.rows;
  }

  predicate KnownRow(rows: seq<Row>, id: nat) { exists i :: 0 <= i < |rows| && rows[i].id == id }

  /** How many panels there are with the id `x` after a call. Adding counts the fresh panel and deleting uncounts the
      one named; otherwise only a row deleted with its panels changes what there is. Moves, of panels and of rows, lose
      and double nothing. */
  lemma StepConserves(d: Dashboard, op: Op, x: nat)
    ensures
      var before, after := Count(d, x), Count(Next(d, op), x);
      match op
      case OpAddPanel(row, _) =>
        after == before + if x == d.nextPanelId + 1 && (row.Some? ==> KnownRow(d.rows, row.value)) then 1 else 0
      case OpDeletePanel(panel) => after == before - if x == panel && before > 0 then 1 else 0
      case OpDeleteRow(id, keepPanels) =>
        after <= before && (keepPanels || !KnownRow(d.rows, id) ==> after == before)
      case _ => after == before
  {
    match op
    case OpAddRow(_) => RowStepConserves(d, op, x);
    case OpMoveRow(_, _) => RowStepConserves(d, op, x);
    case OpCollapse(_, _) => RowStepConserves(d, op, x);
    case OpDeleteRow(id, keepPanels) =>
      if KnownRow(d.rows, id) {
        DeletedRowCounts(d, RowIndex(d.rows, id), keepPanels, x);
      }
    case OpAddPanel(row, box) => AddedPanelCounts(d, row, box, x);
    case OpMovePanel(panel, row, at, below) => PanelMoveConserves(d, panel, row, at, below, x);
    case OpDeletePanel(panel) => DeletedPanelCounts(d, panel, x);
  }

  lemma RowStepConserves(d: Dashboard, op: Op, x: nat)
    requires op.OpAddRow? || op.OpMoveRow? || op.OpCollapse?
    ensures Count(Next(d, op), x) == Count(d, x)
  {
    var e := Next(d, op);
    if op.OpAddRow? {
      assert e.rows == InsertAt(d.rows, |d.rows|, e.rows[|d.rows|]);
      RowCountInserts(d.rows, |d.rows|, e.rows[|d.rows|], x);
    } else if op.OpMoveRow? {
      RowMoveConserves(d.rows, op.id, op.before, x);
    } else if RowIndex(d.rows, op.id) >= 0 {
      RowCountUpdates(d.rows, RowIndex(d.rows, op.id), e.rows[RowIndex(d.rows, op.id)], x);
    }
  }

  lemma AddedPanelCounts(d: Dashboard, row: Option<nat>, box: Box, x: nat)
    ensures Count(Next(d, OpAddPanel(row, box)), x) == Count(d, x) +
            if x == d.nextPanelId + 1 && (row.Some? ==> KnownRow(d.rows, row.value)) then 1 else 0
  {
    if Named(d, row).Some? {
      PutCounts(d, Named(d, row).value, d.nextPanelId + 1, box, x);
    }
  }

  lemma DeletedPanelCounts(d: Dashboard, panel: nat, x: nat)
    ensures Count(Next(d, OpDeletePanel(panel)), x) == Count(d, x) - if x == panel && Count(d, x) > 0 then 1 else 0
  {
    FoundIffCounted(d, panel);
    if Holder(d, panel).Some? {
      var at := Holder(d, panel).value;
      TakeOutCounts(d, at, PanelIndex(PanelsOf(d, at), panel), x);
    }
  }

  lemma RowMoveConserves(rows: seq<Row>, id: nat, before: Option<nat>, x: nat)
    ensures RowMoved(rows, id, before).Some? ==>
      CountInRows(RowMoved(rows, id, before).value, x) == CountInRows(rows, x)
  {
    var src := RowIndex(rows, id);
    if src >= 0 {
      var rest := Without(rows, src);
      RowCountWithout(rows, src, x);
      if before.None? {
        assert InsertAt(rest, |rest|, rows[src]) == rest + [rows[src]];
        RowCountInserts(rest, |rest|, rows[src], x);
      } else if RowIndex(rest, before.value) >= 0 {
        RowCountInserts(rest, RowIndex(rest, before.value), rows[src], x);
      }
    }
  }

  lemma PanelMoveConserves(d: Dashboard, panel: nat, row: Option<nat>, at: Option<nat>, below: Option<nat>, x: nat)
    ensures Count(Next(d, OpMovePanel(panel, row, at, below)), x) == Count(d, x)
  {
    var src, dst := Holder(d, panel), Named(d, row);
    if src.Some? && dst.Some? && src != dst {
      var k := PanelIndex(PanelsOf(d, src.value), panel);
      var pos := PanelsOf(d, src.value)[k].pos;
      TakeOutCounts(d, src.value, k, x);
      PutCounts(TakeOut(d, src.value, k), dst.value, panel, Box(pos.w, pos.h, at, below), x);
    }
  }

  /** Deleting a row uncounts exactly its panels, or nothing if they are kept. */
  lemma DeletedRowCounts(d: Dashboard, i: nat, keepPanels: bool, x: nat)
    requires i < |d.rows| && forall l :: 0 <= l < i ==> d.rows[l].id != d.rows[i].id
    ensures Count(d, x) == Count(Next(d, OpDeleteRow(d.rows[i].id, keepPanels)), x) +
            if keepPanels then 0 else CountIn(d.rows[i].panels, x)
  {
    assert RowIndex(d.rows, d.rows[i].id) == i;
    RowCountWithout(d.rows, i, x);
    CountJoins(d.panels, d.rows[i].panels, x);
  }

  /** Every panel is in one place and was numbered by the counter. */
  ghost predicate EachOnce(d: Dashboard) {
    forall id: nat :: Count(d, id) <= 1 && (id > d.nextPanelId ==> Count(d, id) == 0)
  }

  lemma StepKeepsEachOnce(d: Dashboard, op: Op)
    requires EachOnce(d)
    ensures EachOnce(Next(d, op))
  {
    forall id: nat ensures Count(Next(d, op), id) <= 1 &&
        (id > Next(d, op).nextPanelId ==> Count(Next(d, op), id) == 0) {
      StepConserves(d, op, id);
      CounterGrows(d, op);
    }
  }

  lemma CounterGrows(d: Dashboard, op: Op)
    ensures Next(d, op).nextPanelId == d.nextPanelId +
            if op.OpAddPanel? && (op.row.Some? ==> KnownRow(d.rows, op.row.value)) then 1 else 0
  {}

  /** In any run of tool calls, whatever the coordinates, each panel is in exactly one container. */
  lemma {:induction false} EachPanelOnce(d: Dashboard, ops: seq<Op>)
    requires EachOnce(d)
    ensures EachOnce(Run(d, ops))
    decreases |ops|
  {
    if ops != [] {
      StepKeepsEachOnce(d, ops[0]);
      EachPanelOnce(Next(d, ops[0]), ops[1..]);
    }
  }

  /** A panel moved to another container is the last one there, of the size it had, and at the coordinates given; the
      container it leaves closes up. */
  lemma MovedPanelIsLast(d: Dashboard, panel: nat, row: Option<nat>, x: Option<nat>, y: Option<nat>)
    requires Holder(d, panel).Some? && Named(d, row).Some? && Holder(d, panel) != Named(d, row)
    ensures
      var src, dst, e := Holder(d, panel).value, Named(d, row).value, Next(d, OpMovePanel(panel, row, x, y));
      && Exists(e, src) && Exists(e, dst)
      && exists k, q :: && 0 <= k < |PanelsOf(d, src)| && Carried(PanelsOf(d, src)[k], q, panel, x, y)
                        && PanelsOf(e, src) == PanelsOf(d, src)[..k] + PanelsOf(d, src)[k + 1..]
                        && PanelsOf(e, dst) == PanelsOf(d, dst) + [q]
  {
    var src, dst := Holder(d, panel).value, Named(d, row).value;
    var k := PanelIndex(PanelsOf(d, src), panel);
    var p := PanelsOf(d, src)[k];
    var t := TakeOut(d, src, k);
    var q := AppendedIn(t, dst, panel, Box(p.pos.w, p.pos.h, x, y));
    assert Carried(p, q, panel, x, y);
  }

  /** A panel put in a container is appended there, at its size, and other containers stay as they are. */
  lemma AppendedIn(d: Dashboard, at: Place, id: nat, b: Box) returns (q: Panel)
    requires Exists(d, at)
    ensures q.id == id && q.pos.w == b.w && q.pos.h == b.h
    ensures (b.x.Some? ==> q.pos.x == b.x.value) && (b.y.Some? ==> q.pos.y == b.y.value)
    ensures Exists(PutIn(d, at, id, b), at) && PanelsOf(PutIn(d, at, id, b), at) == PanelsOf(d, at) + [q]
    ensures forall other :: Exists(d, other) && other != at ==>
      Exists(PutIn(d, at, id, b), other) && PanelsOf(PutIn(d, at, id, b), other) == PanelsOf(d, other)
  {
    q := Panel(id, if at.TopLevel? then TopPlacement(d, b).1 else RowPlacement(d.rows[at.i], d.nextY, b).1);
  }

  predicate Carried(p: Panel, q: Panel, id: nat, x: Option<nat>, y: Option<nat>) {
    && p.id == q.id == id && q.pos.w == p.pos.w && q.pos.h == p.pos.h
    && (x.Some? ==> q.pos.x == x.value) && (y.Some? ==> q.pos.y == y.value)
  }

  /** A row is moved exactly when it exists and the row to put it before, if one is named, is another that exists. */
  lemma MovedIff(rows: seq<Row>, id: nat, before: Option<nat>)
    requires forall i, j :: 0 <= i < j < |rows| ==> rows[i].id != rows[j].id
    ensures RowMoved(rows, id, before).Some? <==>
      KnownRow(rows, id) && (before.Some? ==> KnownRow(rows, before.value) && before.value != id)
  {
    var src := RowIndex(rows, id);
    if src >= 0 && before.Some? {
      OthersStay(rows, src, before.value);
      assert RowIndex(Without(rows, src), before.value) >= 0 <==> KnownRow(Without(rows, src), before.value);
    }
  }

  lemma OthersStay(rows: seq<Row>, src: nat, id: nat)
    requires src < |rows| && forall i, j :: 0 <= i < j < |rows| ==> rows[i].id != rows[j].id
    ensures KnownRow(Without(rows, src), id) <==> KnownRow(rows, id) && id != rows[src].id
  {
    var rest := Without(rows, src);
    if i: nat :| i < |rows| && rows[i].id == id && i != src {
      assert rest[if i < src then i else i - 1] == rows[i];
    }
    if i: nat :| i < |rest| && rest[i].id == id {
      assert rest[i] == rows[if i < src then i else i + 1];
    }
  }

  /** Folding changes the flag of the first row with the id, and nothing else. */
  lemma FoldActs(d: Dashboard, i: nat, collapsed: bool)
    requires i < |d.rows| && forall l :: 0 <= l < i ==> d.rows[l].id != d.rows[i].id
    ensures
      var e := Next(d, OpCollapse(d.rows[i].id, collapsed));
      && e == d.(rows := e.rows) && |e.rows| == |d.rows| && e.rows[i] == d.rows[i].(collapsed := collapsed)
      && e.rows[..i] == d.rows[..i] && e.rows[i + 1..] == d.rows[i + 1..]
  {
    assert RowIndex(d.rows, d.rows[i].id) == i;
  }

  /** Deleting takes the first row with the id out; its panels go to the end of the top level if they are kept. */
  lemma DeleteActs(d: Dashboard, i: nat, keepPanels: bool)
    requires i < |d.rows| && forall l :: 0 <= l < i ==> d.rows[l].id != d.rows[i].id
    ensures
      var e := Next(d, OpDeleteRow(d.rows[i].id, keepPanels));
      && e == d.(rows := d.rows[..i] + d.rows[i + 1..], panels := e.panels)
      && e.panels == d.panels + (if keepPanels then d.rows[i].panels else [])
  {
    assert RowIndex(d.rows, d.rows[i].id) == i;
  }

  /** Moving a row changes the rows alone, and nothing when it cannot be moved. */
  lemma MoveActs(d: Dashboard, id: nat, before: Option<nat>)
    ensures RowMoved(d.rows, id, before).None? ==> Next(d, OpMoveRow(id, before)) == d
    ensures RowMoved(d.rows, id, before).Some? ==>
      Next(d, OpMoveRow(id, before)) == d.(rows := RowMoved(d.rows, id, before).value)
  {}

  /** The other rows keep their order. */
  lemma MoveKeepsOrder(rows: seq<Row>, id: nat, before: Option<nat>)
    requires RowMoved(rows, id, before).Some?
    ensures
      var moved := RowMoved(rows, id, before).value;
      exists i, j :: 0 <= i < |rows| && 0 <= j < |moved| && moved[j] == rows[i] && rows[i].id == id &&
          moved[..j] + moved[j + 1..] == rows[..i] + rows[i + 1..]
  {
    var moved := RowMoved(rows, id, before).value;
    var src := RowIndex(rows, id);
    var rest := Without(rows, src);
    var j := if before.None? then |rest| else RowIndex(rest, before.value);
    assert moved == InsertAt(rest, j, rows[src]);
    assert moved[j] == rows[src] && moved[..j] == rest[..j] && moved[j + 1..] == rest[j..];
    assert moved[..j] + moved[j + 1..] == rest == rows[..src] + rows[src + 1..];
  }
}
