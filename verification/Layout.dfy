/**
 The dashboard grid (internal/tools/grafana/panels.go, rows.go and recomputeRowPositions of
 grafana.go): flow placement of panels in rows and at the top level, the row operations that
 feed it, and the recomputation of row positions that an export performs.
 */
module Layout {
  import opened Options

  const COLUMNS: nat := 24

  datatype Pos = Pos(x: int, y: int, w: nat, h: nat) {
    function Bottom(): int { y + h }
  }

  datatype Panel = Panel(id: nat, pos: Pos)

  datatype Row = Row(id: nat, collapsed: bool, panels: seq<Panel>, y: int, nextX: int, nextY: int, lineHeight: nat)

  datatype Dashboard = Dashboard(
    rows: seq<Row>,
    panels: seq<Panel>,
    nextX: int,
    nextY: int,
    lineHeight: nat,
    nextPanelId: nat,
    nextRowId: nat)

  const EMPTY: Dashboard := Dashboard([], [], 0, 0, 0, 0, 0)

  function Max(a: int, b: int): int { if a >= b then a else b }

  predicate Disjoint(a: Pos, b: Pos) {
    a.x + a.w <= b.x || b.x + b.w <= a.x || a.Bottom() <= b.y || b.Bottom() <= a.y
  }

  ghost predicate AllDisjoint(s: seq<Pos>) {
    forall i, j {:trigger Disjoint(s[i], s[j])} :: 0 <= i < j < |s| ==> Disjoint(s[i], s[j])
  }

  // ----- placement

  /** What is asked of a placement: a size, and coordinates if the caller gives them. */
  datatype Box = Box(w: nat, h: nat, x: Option<nat>, y: Option<nat>)

  /** The size of a panel: as given, or by its kind. */
  function Asked(kind: string, w: Option<nat>, h: Option<nat>, x: Option<nat>, y: Option<nat>): Box {
    var small := kind == "stat" || kind == "gauge";
    Box(if w.Some? then w.value else if small then 6 else 24, if h.Some? then h.value else if small then 4 else 8, x, y)
  }

  function Or(o: Option<nat>, v: int): int { if o.Some? then o.value else v }

  /** The line a panel goes to: the cursor moves to a fresh line when the panel does not fit. */
  function Wrapped(r: Row, w: nat, h: nat): Row {
    if r.nextX + w > COLUMNS then
      r.(nextY := r.nextY + (if r.lineHeight == 0 then h else r.lineHeight), nextX := 0, lineHeight := 0)
    else r
  }

  /** placePanelInRow; `top` is the dashboard's maximal extent. An explicit x leaves the cursor where it is. */
  function RowPlacement(r: Row, top: int, b: Box): (Row, Pos) {
    var begun := if r.nextY == 0 then r.(nextY := top) else r;
    var line := if b.x.Some? then begun else Wrapped(begun, b.w, b.h);
    var moved := line.(nextX := line.nextX + b.w, lineHeight := Max(line.lineHeight, b.h));
    (if b.x.Some? then begun else moved, Pos(Or(b.x, line.nextX), Or(b.y, line.nextY), b.w, b.h))
  }

  /** placePanelInDashboard. An explicit x leaves NextX where it is, but the line grows to the panel all the same. */
  function TopPlacement(d: Dashboard, b: Box): (Dashboard, Pos) {
    var line := if b.x.None? && d.nextX + b.w > COLUMNS then d.(nextX := 0, lineHeight := 0) else d;
    var pos := Pos(Or(b.x, line.nextX), Or(b.y, line.nextY - line.lineHeight), b.w, b.h);
    (line.(nextX := if b.x.Some? then line.nextX else line.nextX + b.w,
           lineHeight := Max(line.lineHeight, b.h),
           nextY := Max(line.nextY, pos.Bottom())), pos)
  }

  // ----- operations on the dashboard

  /** The first row with the id, from index `k` on; -1 when there is none. */
  function RowFrom(rows: seq<Row>, id: nat, k: nat): (i: int)
    requires k <= |rows|
    ensures i == -1 || (k <= i < |rows| && rows[i].id == id)
    ensures forall l :: k <= l < (if i < 0 then |rows| else i) ==> rows[l].id != id
    decreases |rows| - k
  {
    if k == |rows| then -1 else if rows[k].id == id then k else RowFrom(rows, id, k + 1)
  }

  function RowIndex(rows: seq<Row>, id: nat): int { RowFrom(rows, id, 0) }

  function PanelFrom(panels: seq<Panel>, id: nat, k: nat): (i: int)
    requires k <= |panels|
    ensures i == -1 || (k <= i < |panels| && panels[i].id == id)
    ensures forall l :: k <= l < (if i < 0 then |panels| else i) ==> panels[l].id != id
    decreases |panels| - k
  {
    if k == |panels| then -1 else if panels[k].id == id then k else PanelFrom(panels, id, k + 1)
  }

  function PanelIndex(panels: seq<Panel>, id: nat): int { PanelFrom(panels, id, 0) }

  /** The first row that holds the panel, from index `k` on. */
  function HolderFrom(rows: seq<Row>, id: nat, k: nat): (i: int)
    requires k <= |rows|
    ensures i == -1 || (k <= i < |rows| && PanelIndex(rows[i].panels, id) >= 0)
    ensures forall l :: k <= l < (if i < 0 then |rows| else i) ==> PanelIndex(rows[l].panels, id) < 0
    decreases |rows| - k
  {
    if k == |rows| then -1 else if PanelIndex(rows[k].panels, id) >= 0 then k else HolderFrom(rows, id, k + 1)
  }

  function HolderIndex(rows: seq<Row>, id: nat): int { HolderFrom(rows, id, 0) }

  function Without<T>(s: seq<T>, i: nat): seq<T>
    requires i < |s|
  {
    s[..i] + s[i + 1..]
  }

  function InsertAt<T>(s: seq<T>, i: nat, x: T): seq<T>
    requires i <= |s|
  {
    s[..i] + [x] + s[i..]
  }

  lemma InsertAdds<T>(s: seq<T>, i: nat, x: T)
    requires i <= |s|
    ensures multiset(InsertAt(s, i, x)) == multiset(s) + multiset{x}
  {
    assert s == s[..i] + s[i..];
  }

  lemma WithoutDrops<T>(s: seq<T>, i: nat)
    requires i < |s|
    ensures multiset(Without(s, i)) + multiset{s[i]} == multiset(s)
  {
    assert s == s[..i] + [s[i]] + s[i + 1..];
  }

  /** Taking an element out and putting it in elsewhere only reorders. */
  lemma Reinsert<T>(s: seq<T>, i: nat, j: nat)
    requires i < |s| && j < |s|
    ensures multiset(InsertAt(Without(s, i), j, s[i])) == multiset(s)
  {
    WithoutDrops(s, i);
    InsertAdds(Without(s, i), j, s[i]);
  }

  function RowAdded(d: Dashboard, collapsed: bool): Dashboard {
    d.(rows := d.rows + [Row(d.nextRowId + 1, collapsed, [], d.nextY, 0, d.nextY + 1, 0)],
       nextRowId := d.nextRowId + 1, nextY := d.nextY + 1)
  }

  /** The row put back among the others, before the named one or at the end; None when the named one is unknown. */
  function Placed(rest: seq<Row>, row: Row, before: Option<nat>): Option<seq<Row>> {
    if before.None? then Some(rest + [row])
    else
      var dst := RowIndex(rest, before.value);
      if dst < 0 then None else Some(InsertAt(rest, dst, row))
  }

  /** move_row: None when either row is unknown. */
  function RowMoved(rows: seq<Row>, id: nat, before: Option<nat>): Option<seq<Row>> {
    var src := RowIndex(rows, id);
    if src < 0 then None else Placed(Without(rows, src), rows[src], before)
  }

  /** Places a panel in row `i` and appends it there. */
  function PutInRow(d: Dashboard, i: nat, panelId: nat, b: Box): Dashboard
    requires i < |d.rows|
  {
    var (r, pos) := RowPlacement(d.rows[i], d.nextY, b);
    d.(rows := d.rows[i := r.(panels := r.panels + [Panel(panelId, pos)])], nextY := Max(d.nextY, pos.Bottom()))
  }

  function PutOnTop(d: Dashboard, panelId: nat, b: Box): Dashboard {
    var (e, pos) := TopPlacement(d, b);
    e.(panels := e.panels + [Panel(panelId, pos)])
  }

  /** A container: the top level, or a row by its index. */
  datatype Place = TopLevel | InRow(i: nat)

  predicate Exists(d: Dashboard, at: Place) { at.InRow? ==> at.i < |d.rows| }

  function PanelsOf(d: Dashboard, at: Place): seq<Panel>
    requires Exists(d, at)
  {
    if at.TopLevel? then d.panels else d.rows[at.i].panels
  }

  function PutIn(d: Dashboard, at: Place, panelId: nat, b: Box): Dashboard
    requires Exists(d, at)
  {
    if at.TopLevel? then PutOnTop(d, panelId, b) else PutInRow(d, at.i, panelId, b)
  }

  function TakeOut(d: Dashboard, at: Place, k: nat): Dashboard
    requires Exists(d, at) && k < |PanelsOf(d, at)|
  {
    if at.TopLevel? then d.(panels := Without(d.panels, k))
    else d.(rows := d.rows[at.i := d.rows[at.i].(panels := Without(d.rows[at.i].panels, k))])
  }

  /** findPanel: the top level first, then the rows in order. */
  function Holder(d: Dashboard, panel: nat): (r: Option<Place>)
    ensures r.Some? ==> Exists(d, r.value) && PanelIndex(PanelsOf(d, r.value), panel) >= 0
  {
    if PanelIndex(d.panels, panel) >= 0 then Some(TopLevel)
    else if HolderIndex(d.rows, panel) >= 0 then Some(InRow(HolderIndex(d.rows, panel)))
    else None
  }

  /** The container a request names: no row id is the top level; None when the row is unknown. */
  function Named(d: Dashboard, row: Option<nat>): (r: Option<Place>)
    ensures r.Some? ==> Exists(d, r.value)
  {
    if row.None? then Some(TopLevel)
    else if RowIndex(d.rows, row.value) < 0 then None
    else Some(InRow(RowIndex(d.rows, row.value)))
  }

  function PanelMoved(d: Dashboard, panel: nat, src: Place, dst: Place, x: Option<nat>, y: Option<nat>): Dashboard
    requires Exists(d, src) && PanelIndex(PanelsOf(d, src), panel) >= 0 && Exists(d, dst)
  {
    var k := PanelIndex(PanelsOf(d, src), panel);
    var pos := PanelsOf(d, src)[k].pos;
    PutIn(TakeOut(d, src, k), dst, panel, Box(pos.w, pos.h, x, y))
  }

  datatype Op =
    | OpAddRow(collapsed: bool)
    | OpMoveRow(id: nat, before: Option<nat>)
    | OpCollapse(id: nat, collapsed: bool)
    | OpDeleteRow(id: nat, keepPanels: bool)
    | OpAddPanel(row: Option<nat>, box: Box)
    | OpMovePanel(panel: nat, row: Option<nat>, x: Option<nat>, y: Option<nat>)
    | OpDeletePanel(panel: nat)

  /** One to twenty-four columns wide, at least one unit tall, and placed by the flow. */
  predicate Flows(b: Box) { 1 <= b.w <= COLUMNS && b.h >= 1 && b.x.None? && b.y.None? }

  /** Calls that leave placement to the flow and panels in rows. */
  predicate InRows(op: Op) {
    match op
    case OpDeleteRow(_, keepPanels) => !keepPanels
    case OpAddPanel(row, box) => row.Some? && Flows(box)
    case OpMovePanel(_, row, x, y) => row.Some? && x.None? && y.None?
    case _ => true
  }

  /** One tool call; an unknown row or panel is an error that leaves the dashboard as it was. */
  function Next(d: Dashboard, op: Op): Dashboard {
    match op
    case OpAddRow(collapsed) => RowAdded(d, collapsed)
    case OpMoveRow(id, before) =>
      var rows := RowMoved(d.rows, id, before);
      if rows.None? then d else d.(rows := rows.value)
    case OpCollapse(id, collapsed) =>
      var i := RowIndex(d.rows, id);
      if i < 0 then d else d.(rows := d.rows[i := d.rows[i].(collapsed := collapsed)])
    case OpDeleteRow(id, keepPanels) =>
      var i := RowIndex(d.rows, id);
      if i < 0 then d
      else d.(rows := Without(d.rows, i), panels := if keepPanels then d.panels + d.rows[i].panels else d.panels)
    case OpAddPanel(row, box) =>
      var dst := Named(d, row);
      if dst.None? then d else PutIn(d, dst.value, d.nextPanelId + 1, box).(nextPanelId := d.nextPanelId + 1)
    case OpMovePanel(panel, row, x, y) =>
      var src, dst := Holder(d, panel), Named(d, row);
      if src.None? || dst.None? || src == dst then d else PanelMoved(d, panel, src.value, dst.value, x, y)
    case OpDeletePanel(panel) =>
      var src := Holder(d, panel);
      if src.None? then d else TakeOut(d, src.value, PanelIndex(PanelsOf(d, src.value), panel))
  }

  function Run(d: Dashboard, ops: seq<Op>): Dashboard
    decreases |ops|
  {
    if ops == [] then d else Run(Next(d, ops[0]), ops[1..])
  }

  method PlaceRow(rest: seq<Row>, row: Row, before: Option<nat>) returns (r: Option<seq<Row>>)
    ensures r == Placed(rest, row, before)
  {
    if before.None? {
      return Some(rest + [row]);
    }
    var dst := 0;
    while dst < |rest| && rest[dst].id != before.value
      invariant 0 <= dst <= |rest| && RowIndex(rest, before.value) == RowFrom(rest, before.value, dst)
    {
      dst := dst + 1;
    }
    if dst == |rest| {
      return None;
    }
    return Some(rest[..dst] + [row] + rest[dst..]);
  }

  // ----- the session object

  class Session {
    var rows: seq<Row>
    var panels: seq<Panel>
    var nextX: int
    var nextY: int
    var lineHeight: nat
    var nextPanelId: nat
    var nextRowId: nat

    function View(): Dashboard
      reads this
    {
      Dashboard(rows, panels, nextX, nextY, lineHeight, nextPanelId, nextRowId)
    }

    constructor ()
      ensures View() == EMPTY
    {
      rows, panels, nextX, nextY, lineHeight, nextPanelId, nextRowId := [], [], 0, 0, 0, 0, 0;
    }

    method FindRow(id: nat) returns (i: int)
      ensures i == RowIndex(rows, id)
    {
      i := 0;
      while i < |rows|
        invariant 0 <= i <= |rows|
        invariant RowIndex(rows, id) == RowFrom(rows, id, i)
      {
        if rows[i].id == id {
          return;
        }
        i := i + 1;
      }
      i := -1;
    }

    method PlaceInRow(i: nat, b: Box) returns (pos: Pos)
      requires i < |rows|
      modifies this`rows, this`nextY
      ensures i < |rows| && (rows[i], pos) == RowPlacement(old(rows)[i], old(nextY), b)
      ensures rows == old(rows)[i := rows[i]] && nextY == Max(old(nextY), pos.Bottom())
    {
      var r := rows[i];
      if r.nextY == 0 {
        r := r.(nextY := nextY);
      }
      var x: int;
      if b.x.Some? {
        x := b.x.value;
      } else {
        if r.nextX + b.w > COLUMNS {
          if r.lineHeight == 0 {
            r := r.(lineHeight := b.h);
          }
          r := r.(nextY := r.nextY + r.lineHeight, nextX := 0, lineHeight := 0);
        }
        x := r.nextX;
        r := r.(nextX := r.nextX + b.w);
        if b.h > r.lineHeight {
          r := r.(lineHeight := b.h);
        }
      }
      var y := if b.y.Some? then b.y.value else r.nextY;
      rows := rows[i := r];
      if y + b.h > nextY {
        nextY := y + b.h;
      }
      pos := Pos(x, y, b.w, b.h);
    }

    method PlaceOnTop(b: Box) returns (pos: Pos)
      modifies this`nextX, this`nextY, this`lineHeight
      ensures (View(), pos) == TopPlacement(old(View()), b)
    {
      var x: int;
      if b.x.Some? {
        x := b.x.value;
      } else {
        if nextX + b.w > COLUMNS {
          nextX := 0;
          lineHeight := 0;
        }
        x := nextX;
        nextX := nextX + b.w;
      }
      var y: int;
      if b.y.Some? {
        y := b.y.value;
      } else if lineHeight > 0 {
        y := nextY - lineHeight;
      } else {
        y := nextY;
      }
      if b.h > lineHeight {
        lineHeight := b.h;
      }
      if y + b.h > nextY {
        nextY := y + b.h;
      }
      pos := Pos(x, y, b.w, b.h);
    }

    /** Places a panel in a container and appends it there. */
    method Put(at: Place, id: nat, b: Box) returns (pos: Pos)
      requires Exists(View(), at)
      modifies this`rows, this`panels, this`nextX, this`nextY, this`lineHeight
      ensures View() == PutIn(old(View()), at, id, b)
      ensures pos.w == b.w && pos.h == b.h && (b.x.Some? ==> pos.x == b.x.value) && (b.y.Some? ==> pos.y == b.y.value)
    {
      match at
      case TopLevel =>
        pos := PlaceOnTop(b);
        panels := panels + [Panel(id, pos)];
      case InRow(i) =>
        pos := PlaceInRow(i, b);
        rows := rows[i := rows[i].(panels := rows[i].panels + [Panel(id, pos)])];
    }

    /** The container a request names. */
    method FindPlace(row: Option<nat>) returns (at: Option<Place>)
      ensures at == Named(View(), row)
    {
      if row.None? {
        return Some(TopLevel);
      }
      var i := FindRow(row.value);
      return if i < 0 then None else Some(InRow(i));
    }

    method AddRow(collapsed: bool) returns (id: nat)
      modifies this`rows, this`nextY, this`nextRowId
      ensures View() == Next(old(View()), OpAddRow(collapsed))
      ensures id == nextRowId == old(nextRowId) + 1 && nextY == old(nextY) + 1 && |rows| == |old(rows)| + 1
      ensures rows[..|old(rows)|] == old(rows)
      ensures rows[|old(rows)|] == Row(id, collapsed, [], old(nextY), 0, old(nextY) + 1, 0)
    {
      nextRowId := nextRowId + 1;
      id := nextRowId;
      rows := rows + [Row(id, collapsed, [], nextY, 0, nextY + 1, 0)];
      nextY := nextY + 1;
    }

    method MoveRow(id: nat, before: Option<nat>) returns (ok: bool)
      modifies this`rows
      ensures ok == RowMoved(old(rows), id, before).Some?
      ensures rows == if ok then RowMoved(old(rows), id, before).value else old(rows)
    {
      var src := FindRow(id);
      if src < 0 {
        return false;
      }
      var moved := PlaceRow(Without(rows, src), rows[src], before);
      if moved.None? {
        return false;
      }
      rows := moved.value;
      return true;
    }

    method Collapse(id: nat, collapsed: bool) returns (ok: bool)
      modifies this`rows
      ensures View() == Next(old(View()), OpCollapse(id, collapsed))
      ensures ok <==> exists i :: 0 <= i < |old(rows)| && old(rows)[i].id == id
    {
      var i := FindRow(id);
      if i < 0 {
        return false;
      }
      rows := rows[i := rows[i].(collapsed := collapsed)];
      return true;
    }

    /** Deletes a row; its panels go with it, or to the end of the top level. */
    method DeleteRow(id: nat, keepPanels: bool) returns (ok: bool)
      modifies this`rows, this`panels
      ensures View() == Next(old(View()), OpDeleteRow(id, keepPanels))
      ensures ok <==> exists i :: 0 <= i < |old(rows)| && old(rows)[i].id == id
      ensures panels == old(panels) || (keepPanels && old(panels) <= panels)
    {
      var i := FindRow(id);
      if i < 0 {
        return false;
      }
      if keepPanels {
        panels := panels + rows[i].panels;
      }
      rows := rows[..i] + rows[i + 1..];
      return true;
    }

    method AddPanel(row: Option<nat>, kind: string, w: Option<nat>, h: Option<nat>, x: Option<nat>, y: Option<nat>)
      returns (pos: Option<Pos>)
      modifies this`rows, this`panels, this`nextX, this`nextY, this`lineHeight, this`nextPanelId
      ensures View() == Next(old(View()), OpAddPanel(row, Asked(kind, w, h, x, y)))
      ensures pos.Some? <==> row.None? || exists i :: 0 <= i < |old(rows)| && old(rows)[i].id == row.value
      ensures pos.Some? && w.None? ==> pos.value.w == if kind == "stat" || kind == "gauge" then 6 else 24
      ensures pos.Some? && h.None? ==> pos.value.h == if kind == "stat" || kind == "gauge" then 4 else 8
      ensures pos.Some? ==> (w.Some? ==> pos.value.w == w.value) && (h.Some? ==> pos.value.h == h.value)
      ensures pos.Some? ==> (x.Some? ==> pos.value.x == x.value) && (y.Some? ==> pos.value.y == y.value)
    {
      var at := FindPlace(row);
      if at.None? {
        return None;   // the handler works on a clone that an error discards
      }
      nextPanelId := nextPanelId + 1;
      var p := Put(at.value, nextPanelId, Asked(kind, w, h, x, y));
      pos := Some(p);
    }

    /** Where a panel is: its container and its index there. */
    method FindPanel(id: nat) returns (at: Option<Place>, k: int)
      ensures at == Holder(View(), id)
      ensures at.Some? ==> k == PanelIndex(PanelsOf(View(), at.value), id)
    {
      k := PanelIndex(panels, id);
      if k >= 0 {
        return Some(TopLevel), k;
      }
      var i := 0;
      while i < |rows|
        invariant 0 <= i <= |rows|
        invariant HolderIndex(rows, id) == HolderFrom(rows, id, i)
      {
        k := PanelIndex(rows[i].panels, id);
        if k >= 0 {
          return Some(InRow(i)), k;
        }
        i := i + 1;
      }
      return None, -1;
    }

    method Remove(at: Place, k: nat)
      requires Exists(View(), at) && k < |PanelsOf(View(), at)|
      modifies this`rows, this`panels
      ensures View() == TakeOut(old(View()), at, k)
    {
      match at
      case TopLevel => panels := panels[..k] + panels[k + 1..];
      case InRow(i) =>
        rows := rows[i := rows[i].(panels := rows[i].panels[..k] + rows[i].panels[k + 1..])];
    }

    method DeletePanel(panel: nat) returns (ok: bool)
      modifies this`rows, this`panels
      ensures View() == Next(old(View()), OpDeletePanel(panel))
      ensures ok <==> Holder(old(View()), panel).Some?
    {
      var at, k := FindPanel(panel);
      if at.None? {
        return false;
      }
      Remove(at.value, k);
      return true;
    }

    method MovePanel(panel: nat, row: Option<nat>, x: Option<nat>, y: Option<nat>) returns (ok: bool)
      modifies this`rows, this`panels, this`nextX, this`nextY, this`lineHeight
      ensures View() == Next(old(View()), OpMovePanel(panel, row, x, y))
      ensures ok <==> Holder(old(View()), panel).Some? && Named(old(View()), row).Some?
    {
      var src, k := FindPanel(panel);
      if src.None? {
        return false;
      }
      var dst := FindPlace(row);
      if dst.None? {
        return false;
      }
      if src == dst {
        return true;
      }
      var size := PanelsOf(View(), src.value)[k].pos;
      Remove(src.value, k);
      var pos := Put(dst.value, panel, Box(size.w, size.h, x, y));
      return true;
    }
  }

  // ----- what every operation keeps

  predicate InGrid(p: Pos) { 0 <= p.x && p.x + p.w <= COLUMNS && p.w >= 1 && p.h >= 1 }

  ghost predicate PanelsDisjoint(panels: seq<Panel>) {
    forall i, j {:trigger Disjoint(panels[i].pos, panels[j].pos)} :: 0 <= i < j < |panels| ==>
        Disjoint(panels[i].pos, panels[j].pos)
  }

  /** A panel is on a finished line above the cursor, or on the cursor's line to its left. */
  predicate BehindCursor(p: Pos, nextX: int, nextY: int, lineHeight: nat) {
    p.Bottom() <= nextY || (p.y == nextY && p.x + p.w <= nextX && p.h <= lineHeight)
  }

  ghost predicate AllBelow(panels: seq<Panel>, top: int) {
    forall k :: 0 <= k < |panels| ==> InGrid(panels[k].pos) && panels[k].pos.y > top
  }

  ghost predicate RowOk(r: Row) {
    && r.y >= 0
    && 0 <= r.nextX <= COLUMNS && r.nextY > r.y && (r.lineHeight == 0 <==> r.nextX == 0)
    && PanelsDisjoint(r.panels)
    && AllBelow(r.panels, r.y)
    && (forall k :: 0 <= k < |r.panels| ==> BehindCursor(r.panels[k].pos, r.nextX, r.nextY, r.lineHeight))
  }

  /** Every panel is in a row, and every row is well laid out and covered by the dashboard's extent. */
  ghost predicate Ok(d: Dashboard) {
    d.nextY >= 0 && d.panels == [] && forall r :: r in d.rows ==> RowOk(r) && Covered(r, d.nextY)
  }

  ghost predicate Covered(r: Row, top: int) { r.y < top && EndsBy(r.panels, top) }

  ghost predicate EndsBy(panels: seq<Panel>, top: int) {
    forall k :: 0 <= k < |panels| ==> panels[k].pos.Bottom() <= top
  }

  /** Placing a panel keeps the row well laid out: the new panel overlaps none of the old ones. */
  lemma PlacementKeepsRow(r: Row, top: int, id: nat, b: Box)
    requires RowOk(r) && Flows(b)
    ensures
      var (q, pos) := RowPlacement(r, top, b);
      RowOk(q.(panels := q.panels + [Panel(id, pos)])) && pos.w == b.w && pos.h == b.h
  {
    var (q, pos) := RowPlacement(r, top, b);
    var full := q.(panels := q.panels + [Panel(id, pos)]);
    forall k | 0 <= k < |r.panels|
      ensures BehindCursor(r.panels[k].pos, q.nextX, q.nextY, q.lineHeight) && Disjoint(r.panels[k].pos, pos)
    {
      assert BehindCursor(r.panels[k].pos, r.nextX, r.nextY, r.lineHeight);
      assert InGrid(r.panels[k].pos);
    }
  }

  lemma RemovalKeepsRow(r: Row, k: nat)
    requires RowOk(r) && k < |r.panels|
    ensures RowOk(r.(panels := Without(r.panels, k)))
  {}

  lemma PutKeeps(d: Dashboard, i: nat, id: nat, b: Box)
    requires Ok(d) && i < |d.rows| && Flows(b)
    ensures Ok(PutInRow(d, i, id, b))
  {
    PlacementKeepsRow(d.rows[i], d.nextY, id, b);
    var e := PutInRow(d, i, id, b);
    forall r | r in e.rows ensures RowOk(r) && Covered(r, e.nextY) {
      assert Covered(d.rows[i], d.nextY);
      assert r == e.rows[i] || r in d.rows;
    }
  }

  lemma TakeOutKeeps(d: Dashboard, i: nat, k: nat)
    requires Ok(d) && i < |d.rows| && k < |d.rows[i].panels|
    ensures Ok(TakeOut(d, InRow(i), k))
  {
    RemovalKeepsRow(d.rows[i], k);
    var e := TakeOut(d, InRow(i), k);
    assert Covered(d.rows[i], d.nextY);
    forall r | r in e.rows ensures RowOk(r) && Covered(r, e.nextY) {
      assert r == e.rows[i] || r in d.rows;
    }
  }

  /** move_row only reorders the rows. */
  lemma MovePermutes(rows: seq<Row>, id: nat, before: Option<nat>)
    ensures RowMoved(rows, id, before).Some? ==> multiset(RowMoved(rows, id, before).value) == multiset(rows)
  {
    var src := RowIndex(rows, id);
    if src >= 0 {
      var rest := Without(rows, src);
      if before.None? {
        assert InsertAt(rest, |rest|, rows[src]) == rest + [rows[src]];
        Reinsert(rows, src, |rest|);
      } else if RowIndex(rest, before.value) >= 0 {
        Reinsert(rows, src, RowIndex(rest, before.value));
      }
    }
  }

  /** The moved row ends up directly before the one named, or last. */
  lemma MovePlaces(rows: seq<Row>, id: nat, before: Option<nat>)
    requires RowMoved(rows, id, before).Some?
    ensures
      var moved := RowMoved(rows, id, before).value;
      if before.None? then moved != [] && moved[|moved| - 1].id == id
      else exists i :: 0 <= i < |moved| - 1 && moved[i].id == id && moved[i + 1].id == before.value
  {
    var src := RowIndex(rows, id);
    var rest := Without(rows, src);
    var moved := RowMoved(rows, id, before).value;
    if before.Some? {
      var i := RowIndex(rest, before.value);
      assert moved[i] == rows[src] && moved[i + 1] == rest[i];
    }
  }

  lemma RowStepKeeps(d: Dashboard, op: Op)
    requires Ok(d) && InRows(op) && (op.OpAddRow? || op.OpMoveRow? || op.OpCollapse? || op.OpDeleteRow?)
    ensures Ok(Next(d, op))
  {
    var e := Next(d, op);
    forall r | r in e.rows ensures RowOk(r) && Covered(r, e.nextY) {
      if op.OpMoveRow? {
        MovePermutes(d.rows, op.id, op.before);
        assert r in multiset(e.rows);
      } else if op.OpCollapse? && r !in d.rows {
        assert d.rows[RowIndex(d.rows, op.id)] in d.rows;
        assert r == d.rows[RowIndex(d.rows, op.id)].(collapsed := op.collapsed);
      } else if op.OpAddRow? && r !in d.rows {
        assert r == e.rows[|d.rows|];
      } else {
        assert r in d.rows;
      }
    }
  }

  lemma PanelMovedKeeps(d: Dashboard, panel: nat, src: nat, dst: nat)
    requires Ok(d) && src < |d.rows| && PanelIndex(d.rows[src].panels, panel) >= 0 && dst < |d.rows|
    ensures Ok(PanelMoved(d, panel, InRow(src), InRow(dst), None, None))
  {
    var k := PanelIndex(d.rows[src].panels, panel);
    assert RowOk(d.rows[src]) && InGrid(d.rows[src].panels[k].pos);
    TakeOutKeeps(d, src, k);
    var pos := d.rows[src].panels[k].pos;
    PutKeeps(TakeOut(d, InRow(src), k), dst, panel, Box(pos.w, pos.h, None, None));
  }

  /** Every such tool call keeps the layout. */
  lemma StepKeeps(d: Dashboard, op: Op)
    requires Ok(d) && InRows(op)
    ensures Ok(Next(d, op))
  {
    match op
    case OpAddRow(_) => RowStepKeeps(d, op);
    case OpMoveRow(_, _) => RowStepKeeps(d, op);
    case OpCollapse(_, _) => RowStepKeeps(d, op);
    case OpDeleteRow(_, _) => RowStepKeeps(d, op);
    case OpAddPanel(row, box) =>
      if Named(d, row).Some? {
        PutKeeps(d, Named(d, row).value.i, d.nextPanelId + 1, box);
      }
    case OpMovePanel(panel, row, _, _) =>
      if Holder(d, panel).Some? && Named(d, row).Some? {
        PanelMovedKeeps(d, panel, Holder(d, panel).value.i, Named(d, row).value.i);
      }
    case OpDeletePanel(panel) =>
      if Holder(d, panel).Some? {
        TakeOutKeeps(d, Holder(d, panel).value.i, PanelIndex(PanelsOf(d, Holder(d, panel).value), panel));
      }
  }

  /** In any run, in any order of rows, each row's panels are disjoint, inside the grid and below the header. */
  lemma {:induction false} RunKeeps(d: Dashboard, ops: seq<Op>)
    requires Ok(d) && forall i :: 0 <= i < |ops| ==> InRows(ops[i])
    ensures Ok(Run(d, ops))
    decreases |ops|
  {
    if ops != [] {
      StepKeeps(d, ops[0]);
      RunKeeps(Next(d, ops[0]), ops[1..]);
    }
  }

  // ----- the maximal extent, whatever the coordinates

  /** NextY is below every header and no panel ends below it. */
  ghost predicate Extent(d: Dashboard) {
    d.nextX >= 0 && d.nextY >= 0 && EndsBy(d.panels, d.nextY) && forall r :: r in d.rows ==> Covered(r, d.nextY)
  }

  lemma PutKeepsExtent(d: Dashboard, at: Place, id: nat, b: Box)
    requires Extent(d) && Exists(d, at)
    ensures Extent(PutIn(d, at, id, b))
  {
    if at.InRow? {
      var e := PutIn(d, at, id, b);
      assert Covered(d.rows[at.i], d.nextY);
      forall r | r in e.rows ensures Covered(r, e.nextY) {
        assert r == e.rows[at.i] || r in d.rows;
      }
    }
  }

  lemma TakeOutKeepsExtent(d: Dashboard, at: Place, k: nat)
    requires Extent(d) && Exists(d, at) && k < |PanelsOf(d, at)|
    ensures Extent(TakeOut(d, at, k))
  {
    if at.InRow? {
      var e := TakeOut(d, at, k);
      assert Covered(d.rows[at.i], d.nextY);
      forall r | r in e.rows ensures Covered(r, e.nextY) {
        assert r == e.rows[at.i] || r in d.rows;
      }
    }
  }

  lemma MoveKeepsExtent(d: Dashboard, id: nat, before: Option<nat>)
    requires Extent(d)
    ensures Extent(Next(d, OpMoveRow(id, before)))
  {
    MovePermutes(d.rows, id, before);
    var e := Next(d, OpMoveRow(id, before));
    forall r | r in e.rows ensures Covered(r, e.nextY) {
      assert r in multiset(e.rows);
    }
  }

  lemma RowStepKeepsExtent(d: Dashboard, op: Op)
    requires Extent(d) && (op.OpAddRow? || op.OpCollapse? || op.OpDeleteRow?)
    ensures Extent(Next(d, op))
  {
    var e := Next(d, op);
    if op.OpDeleteRow? && RowIndex(d.rows, op.id) >= 0 {
      assert Covered(d.rows[RowIndex(d.rows, op.id)], d.nextY);
    }
    forall r | r in e.rows ensures Covered(r, e.nextY) {
      if op.OpCollapse? && r !in d.rows {
        assert d.rows[RowIndex(d.rows, op.id)] in d.rows;
        assert r == d.rows[RowIndex(d.rows, op.id)].(collapsed := op.collapsed);
      } else if op.OpAddRow? && r !in d.rows {
        assert r == e.rows[|d.rows|];
      } else {
        assert r in d.rows;
      }
    }
  }

  lemma StepKeepsExtent(d: Dashboard, op: Op)
    requires Extent(d)
    ensures Extent(Next(d, op))
  {
    match op
    case OpAddPanel(row, box) =>
      if Named(d, row).Some? {
        PutKeepsExtent(d, Named(d, row).value, d.nextPanelId + 1, box);
      }
    case OpMovePanel(panel, row, x, y) =>
      var src, dst := Holder(d, panel), Named(d, row);
      if src.Some? && dst.Some? && src != dst {
        var k := PanelIndex(PanelsOf(d, src.value), panel);
        var pos := PanelsOf(d, src.value)[k].pos;
        TakeOutKeepsExtent(d, src.value, k);
        PutKeepsExtent(TakeOut(d, src.value, k), dst.value, panel, Box(pos.w, pos.h, x, y));
      }
    case OpDeletePanel(panel) =>
      if Holder(d, panel).Some? {
        TakeOutKeepsExtent(d, Holder(d, panel).value, PanelIndex(PanelsOf(d, Holder(d, panel).value), panel));
      }
    case OpMoveRow(id, before) => MoveKeepsExtent(d, id, before);
    case _ => RowStepKeepsExtent(d, op);
  }

  /** Any run of tool calls, explicit coordinates, top-level panels and promoted panels included, keeps NextY below
      everything. */
  lemma {:induction false} ExtentHolds(d: Dashboard, ops: seq<Op>)
    requires Extent(d)
    ensures Extent(Run(d, ops))
    decreases |ops|
  {
    if ops != [] {
      StepKeepsExtent(d, ops[0]);
      ExtentHolds(Next(d, ops[0]), ops[1..]);
    }
  }

  /** The panel that the flow would put next at the top level misses every panel there. */
  ghost predicate NextIsFree(d: Dashboard, b: Box) {
    forall k :: 0 <= k < |d.panels| ==> Disjoint(d.panels[k].pos, TopPlacement(d, b).1)
  }

  /** No panel reaches into the rest of the cursor's line. */
  ghost predicate LineIsFree(d: Dashboard) {
    forall k :: 0 <= k < |d.panels| ==> !Reaches(d, d.panels[k].pos)
  }

  /** A panel reaches right of the cursor and below the top of its line. */
  predicate Reaches(d: Dashboard, p: Pos) {
    p.x < COLUMNS && p.x + p.w > d.nextX && p.Bottom() > d.nextY - d.lineHeight
  }

  /** Whatever was placed where before: the flow never overlaps, for panels of any size, exactly when the cursor's line
      is full or nothing reaches into the rest of it. */
  lemma NextIsFreeIff(d: Dashboard)
    requires Extent(d)
    ensures (forall b :: Flows(b) ==> NextIsFree(d, b)) <==> d.nextX >= COLUMNS || LineIsFree(d)
  {
    if d.nextX < COLUMNS && !LineIsFree(d) {
      var k :| 0 <= k < |d.panels| && Reaches(d, d.panels[k].pos);
      var p := d.panels[k].pos;
      var b := Box(COLUMNS - d.nextX, Max(1, p.y - (d.nextY - d.lineHeight) + 1), None, None);
      assert !Disjoint(p, TopPlacement(d, b).1);
      assert !NextIsFree(d, b);
    }
    if d.nextX >= COLUMNS || LineIsFree(d) {
      forall b | Flows(b) ensures NextIsFree(d, b) {
        forall k | 0 <= k < |d.panels| ensures Disjoint(d.panels[k].pos, TopPlacement(d, b).1) {
          assert !Reaches(d, d.panels[k].pos) || d.nextX >= COLUMNS;
        }
      }
    }
  }

  /** So a top-level panel with explicit coordinates can be overlapped by the next panel of the flow. */
  lemma ExplicitIsOverlapped()
    ensures
      var d := Run(EMPTY, [OpAddPanel(None, Box(6, 5, Some(0), Some(10)))]);
      |d.panels| == 1 && !Disjoint(d.panels[0].pos, TopPlacement(d, Box(6, 4, None, None)).1)
  {
    var op := OpAddPanel(None, Box(6, 5, Some(0), Some(10)));
    assert [op][1..] == [];
    assert Run(EMPTY, [op]) == Run(Next(EMPTY, op), []) == Next(EMPTY, op);
  }

  // ----- row recomputation

  function Shifted(p: Panel, delta: int): Panel { p.(pos := p.pos.(y := p.pos.y + delta)) }

  function ShiftAll(panels: seq<Panel>, delta: int): (r: seq<Panel>)
    ensures |r| == |panels|
    ensures forall k :: 0 <= k < |panels| ==> r[k] == Shifted(panels[k], delta)
    ensures delta == 0 ==> r == panels
  {
    seq(|panels|, k requires 0 <= k < |panels| => Shifted(panels[k], delta))
  }

  /** The lowest edge of the panels, or `y` if they all end above it. */
  function Lowest(panels: seq<Panel>, y: int): (r: int)
    ensures r >= y
    ensures forall k :: 0 <= k < |panels| ==> panels[k].pos.Bottom() <= r
  {
    if panels == [] then y else Lowest(panels[1..], Max(y, panels[0].pos.Bottom()))
  }

  lemma {:induction false} LowestAttained(panels: seq<Panel>, y: int)
    ensures Lowest(panels, y) == y || exists k :: 0 <= k < |panels| && panels[k].pos.Bottom() == Lowest(panels, y)
  {
    if panels != [] {
      var rest, from := panels[1..], Max(y, panels[0].pos.Bottom());
      LowestAttained(rest, from);
      if Lowest(panels, y) != y && Lowest(panels, y) != panels[0].pos.Bottom() {
        var k :| 0 <= k < |rest| && rest[k].pos.Bottom() == Lowest(rest, from);
        assert panels[k + 1] == rest[k];
      }
    }
  }

  /** A row as it is shown with its header at `y`, and where the next header goes. */
  function At(r: Row, y: int): Row {
    r.(y := y, panels := if r.collapsed then r.panels else ShiftAll(r.panels, y - r.y))
  }

  function After(r: Row): int { if r.collapsed then r.y + 1 else Lowest(r.panels, r.y + 1) }

  function Recomputed(rows: seq<Row>, y: int): (r: seq<Row>)
    ensures |r| == |rows|
  {
    if rows == [] then [] else [At(rows[0], y)] + Recomputed(rows[1..], After(At(rows[0], y)))
  }

  lemma {:induction false} LowestSnoc(panels: seq<Panel>, p: Panel, y: int)
    ensures Lowest(panels + [p], y) == Max(Lowest(panels, y), p.pos.Bottom())
  {
    if panels == [] {
      assert [p][1..] == [];
      assert Lowest([p], y) == Lowest([], Max(y, p.pos.Bottom()));
      assert panels + [p] == [p];
    } else {
      assert (panels + [p])[1..] == panels[1..] + [p];
      LowestSnoc(panels[1..], p, Max(y, panels[0].pos.Bottom()));
    }
  }

  /** The panels of one row moved by `delta`; the running bottom starts at `y`. */
  method MovePanels(panels: seq<Panel>, delta: int, y: int) returns (moved: seq<Panel>, bottom: int)
    ensures moved == ShiftAll(panels, delta) && bottom == Lowest(moved, y)
  {
    moved := panels;
    if delta != 0 && |panels| > 0 {
      moved := [];
      for j := 0 to |panels|
        invariant |moved| == j
        invariant forall k :: 0 <= k < j ==> moved[k] == Shifted(panels[k], delta)
      {
        moved := moved + [panels[j].(pos := panels[j].pos.(y := panels[j].pos.y + delta))];
      }
    }
    assert moved == ShiftAll(panels, delta);
    bottom := y;
    for j := 0 to |moved|
      invariant bottom == Lowest(moved[..j], y)
    {
      LowestSnoc(moved[..j], moved[j], y);
      assert moved[..j + 1] == moved[..j] + [moved[j]];
      if moved[j].pos.y + moved[j].pos.h > bottom {
        bottom := moved[j].pos.y + moved[j].pos.h;
      }
    }
    assert moved[..|moved|] == moved;
  }

  /** One round of the recomputation: the row with its header at `y`, and the next header's position. */
  method ShowAt(r: Row, y: int) returns (c: Row, nextY: int)
    ensures c == At(r, y) && nextY == After(c)
  {
    c := r.(y := y);
    nextY := y + 1;
    if r.collapsed {
      return;
    }
    var moved, bottom := MovePanels(r.panels, y - r.y, nextY);
    c := c.(panels := moved);
    nextY := bottom;
  }

  method RecomputeRowPositions(rows: seq<Row>) returns (result: seq<Row>)
    ensures result == Recomputed(rows, 0)
  {
    result := [];
    var currentY := 0;
    for i := 0 to |rows|
      invariant result + Recomputed(rows[i..], currentY) == Recomputed(rows, 0)
    {
      var c, nextY := ShowAt(rows[i], currentY);
      assert rows[i..][0] == rows[i] && rows[i..][1..] == rows[i + 1..];
      assert Recomputed(rows[i..], currentY) == [c] + Recomputed(rows[i + 1..], nextY);
      result, currentY := result + [c], nextY;
    }
  }

  /** How far the next header is below this row's, wherever the row is shown. */
  function Span(r: Row): int { if r.collapsed then 1 else Lowest(ShiftAll(r.panels, -r.y), 1) }

  /** Where the recomputation puts the header of row `i`: below the rows before it, the first at `y`. */
  function HeaderAt(rows: seq<Row>, y: int, i: nat): int
    requires i < |rows|
  {
    if i == 0 then y else HeaderAt(rows, y, i - 1) + Span(rows[i - 1])
  }

  lemma {:induction false} LowestShifts(panels: seq<Panel>, moved: seq<Panel>, delta: int, y: int)
    requires |moved| == |panels| && forall k :: 0 <= k < |panels| ==> moved[k] == Shifted(panels[k], delta)
    ensures Lowest(moved, y + delta) == Lowest(panels, y) + delta
    decreases |panels|
  {
    if panels != [] {
      LowestShifts(panels[1..], moved[1..], delta, Max(y, panels[0].pos.Bottom()));
      assert Max(y + delta, moved[0].pos.Bottom()) == Max(y, panels[0].pos.Bottom()) + delta;
    }
  }

  lemma SpanIs(r: Row, y: int)
    ensures After(At(r, y)) == y + Span(r)
  {
    if !r.collapsed {
      LowestShifts(ShiftAll(r.panels, -r.y), ShiftAll(r.panels, y - r.y), y, 1);
    }
  }

  /** The same sum taken from the front. */
  lemma {:induction false} HeaderFromFront(rows: seq<Row>, y: int, i: nat)
    requires 0 < i < |rows|
    ensures HeaderAt(rows, y, i) == HeaderAt(rows[1..], y + Span(rows[0]), i - 1)
    decreases i
  {
    if i > 1 {
      HeaderFromFront(rows, y, i - 1);
    } else {
      assert HeaderAt(rows, y, 0) == y;
    }
  }

  /** Recomputation shows each row below the rows before it. */
  lemma {:induction false} RecomputedIs(rows: seq<Row>, y: int, i: nat)
    requires i < |rows|
    ensures Recomputed(rows, y)[i] == At(rows[i], HeaderAt(rows, y, i))
    decreases i
  {
    if i > 0 {
      var rest, after := rows[1..], y + Span(rows[0]);
      SpanIs(rows[0], y);
      RecomputedTail(rows, y, i);
      RecomputedIs(rest, after, i - 1);
      HeaderFromFront(rows, y, i);
      assert Recomputed(rows, y)[i] == Recomputed(rest, after)[i - 1];
    } else {
      assert HeaderAt(rows, y, 0) == y;
    }
  }

  lemma RecomputedTail(rows: seq<Row>, y: int, i: nat)
    requires 0 < i < |rows|
    ensures Recomputed(rows, y)[i] == Recomputed(rows[1..], After(At(rows[0], y)))[i - 1] && rows[1..][i - 1] == rows[i]
  {}

  /** It keeps identities, sizes and columns, and keeps the panels' offsets from their header exactly for a row that is
      expanded, empty, or has its header there already. */
  lemma OffsetsKept(rows: seq<Row>, y: int, i: nat)
    requires i < |rows|
    ensures
      var r, q := rows[i], Recomputed(rows, y)[i];
      && q.id == r.id && q.collapsed == r.collapsed && |q.panels| == |r.panels| && q.y == HeaderAt(rows, y, i)
      && (SameOffsets(r, q) <==> !r.collapsed || r.panels == [] || HeaderAt(rows, y, i) == r.y)
      && (forall k :: 0 <= k < |r.panels| ==> SameBut(r.panels[k], q.panels[k]))
  {
    RecomputedIs(rows, y, i);
    OffsetsAt(rows[i], HeaderAt(rows, y, i));
  }

  lemma OffsetsAt(r: Row, y: int)
    ensures
      var q := At(r, y);
      && (SameOffsets(r, q) <==> !r.collapsed || r.panels == [] || y == r.y)
      && (forall k :: 0 <= k < |r.panels| ==> SameBut(r.panels[k], q.panels[k]))
  {
    var q := At(r, y);
    if r.collapsed && r.panels != [] && y != r.y {
      assert q.panels[0].pos.y - q.y != r.panels[0].pos.y - r.y;
    }
  }

  /** Two rows, the second collapsed, a panel in each, the first row's added last: the export moves the second header
      down and leaves its panel above it. */
  lemma CollapsedLosesOffsets()
    ensures
      var panel := Box(24, 8, None, None);
      var rows := Run(EMPTY, [OpAddRow(false), OpAddRow(true), OpAddPanel(Some(2), panel),
          OpAddPanel(Some(1), panel)]).rows;
      && |rows| == 2 && |rows[1].panels| == 1 && rows[1].panels[0].pos.y > rows[1].y
      && Recomputed(rows, 0)[1].panels == rows[1].panels && rows[1].panels[0].pos.y < Recomputed(rows, 0)[1].y
  {
    var panel := Box(24, 8, None, None);
    var second := OpAddPanel(Some(2), panel);
    var b := TwoRows();
    assert RowFrom(b.rows, 2, 1) == 1 && Named(b, Some(2)) == Some(InRow(1));
    assert RowPlacement(b.rows[1], 2, panel) == (Row(2, true, [], 1, 24, 2, 8), Pos(0, 2, 24, 8));
    var c := Next(b, second);
    assert c.rows[1].panels == [Panel(1, Pos(0, 2, 24, 8))];
    assert Named(c, Some(1)) == Some(InRow(0));
    var first := Row(1, false, [Panel(2, Pos(0, 1, 24, 8))], 0, 24, 1, 8);
    assert RowPlacement(c.rows[0], 10, panel) == (first.(panels := []), Pos(0, 1, 24, 8));
    var d := Next(c, OpAddPanel(Some(1), panel));
    assert d.rows[0].panels == [] + [Panel(2, Pos(0, 1, 24, 8))] == first.panels;
    assert d.rows[0] == first && d.rows[1] == c.rows[1];
    assert Recomputed(d.rows, 0)[1] == At(c.rows[1], 9) by {
      assert At(first, 0) == first && After(first) == Lowest([], 9) == 9;
      assert d.rows[1..] == [c.rows[1]];
    }
    FourOps(OpAddRow(false), OpAddRow(true), second, OpAddPanel(Some(1), panel));
  }

  /** An expanded and a collapsed row, both empty. */
  lemma TwoRows() returns (d: Dashboard)
    ensures d == Next(Next(EMPTY, OpAddRow(false)), OpAddRow(true))
    ensures d == EMPTY.(rows := [Row(1, false, [], 0, 0, 1, 0), Row(2, true, [], 1, 0, 2, 0)], nextY := 2,
            nextRowId := 2)
  {
    d := Next(Next(EMPTY, OpAddRow(false)), OpAddRow(true));
    assert [] + [Row(1, false, [], 0, 0, 1, 0)] == [Row(1, false, [], 0, 0, 1, 0)];
  }

  lemma FourOps(a: Op, b: Op, c: Op, d: Op)
    ensures Run(EMPTY, [a, b, c, d]) == Next(Next(Next(Next(EMPTY, a), b), c), d)
  {
    assert [a, b, c, d][1..] == [b, c, d] && [b, c, d][1..] == [c, d] && [c, d][1..] == [d] && [d][1..] == [];
    var e := Next(Next(EMPTY, a), b);
    assert Run(e, [c, d]) == Run(Next(e, c), [d]) == Run(Next(Next(e, c), d), []);
  }

  ghost predicate SameOffsets(r: Row, q: Row)
    requires |q.panels| == |r.panels|
  {
    forall k :: 0 <= k < |r.panels| ==> q.panels[k].pos.y - q.y == r.panels[k].pos.y - r.y
  }

  predicate SameBut(p: Panel, q: Panel) {
    p.id == q.id && p.pos.x == q.pos.x && p.pos.w == q.pos.w && p.pos.h == q.pos.h
  }

  /** Recomputing twice is recomputing once, for any rows whatever. */
  lemma {:induction false} RecomputeIdempotent(rows: seq<Row>, y: int)
    ensures Recomputed(Recomputed(rows, y), y) == Recomputed(rows, y)
  {
    if rows != [] {
      var c := At(rows[0], y);
      assert At(c, y) == c;
      RecomputeIdempotent(rows[1..], After(c));
      assert Recomputed(rows, y)[1..] == Recomputed(rows[1..], After(c));
    }
  }

  // ----- what an export shows

  function Header(r: Row): Pos { Pos(0, r.y, COLUMNS, 1) }

  function Positions(panels: seq<Panel>): (r: seq<Pos>)
    ensures |r| == |panels| && forall k :: 0 <= k < |panels| ==> r[k] == panels[k].pos
  {
    seq(|panels|, k requires 0 <= k < |panels| => panels[k].pos)
  }

  function RowBoxes(r: Row): seq<Pos> { [Header(r)] + Shown(r) }

  function Shown(r: Row): seq<Pos> { if r.collapsed then [] else Positions(r.panels) }

  /** Everything visible: all headers, and the panels of expanded rows. */
  function Boxes(rows: seq<Row>): seq<Pos> {
    if rows == [] then [] else RowBoxes(rows[0]) + Boxes(rows[1..])
  }

  ghost predicate Within(boxes: seq<Pos>, top: int) {
    forall i :: 0 <= i < |boxes| ==> InGrid(boxes[i]) && boxes[i].y >= top
  }

  /** A well laid out row shown at `y` fills the band from `y` to the next header without overlaps. */
  lemma RowBand(r: Row, y: int)
    requires RowOk(r) && y >= 0
    ensures AllDisjoint(RowBoxes(At(r, y))) && Within(RowBoxes(At(r, y)), y)
    ensures EndBy(RowBoxes(At(r, y)), After(At(r, y))) && y < After(At(r, y))
  {
    var c := At(r, y);
    if r.collapsed {
      assert Shown(c) == [] && After(c) == y + 1;
    } else {
      PanelsBand(r.panels, r.y, y);
      assert Shown(c) == Positions(c.panels) && After(c) == Lowest(c.panels, y + 1);
    }
    BandOf(y, Shown(c), After(c));
  }

  lemma BandOf(y: int, panels: seq<Pos>, cut: int)
    requires AllDisjoint(panels) && Within(panels, y + 1) && EndBy(panels, cut) && y < cut
    ensures
      var boxes := [Pos(0, y, COLUMNS, 1)] + panels;
      AllDisjoint(boxes) && Within(boxes, y) && EndBy(boxes, cut)
  {
    Stack([Pos(0, y, COLUMNS, 1)], panels, y + 1);
  }

  ghost predicate EndBy(boxes: seq<Pos>, cut: int) {
    forall i :: 0 <= i < |boxes| ==> boxes[i].Bottom() <= cut
  }

  lemma PanelsBand(panels: seq<Panel>, top: int, y: int)
    requires PanelsDisjoint(panels) && AllBelow(panels, top)
    ensures
      var shown := ShiftAll(panels, y - top);
      && AllDisjoint(Positions(shown)) && Within(Positions(shown), y + 1)
      && EndBy(Positions(shown), Lowest(shown, y + 1))
  {
    ShiftDisjoint(panels, y - top);
    ShiftWithin(panels, top, y);
    EndsLowest(ShiftAll(panels, y - top), y + 1);
  }

  lemma EndsLowest(panels: seq<Panel>, y: int)
    ensures EndBy(Positions(panels), Lowest(panels, y))
  {}

  lemma ShiftDisjoint(panels: seq<Panel>, delta: int)
    requires PanelsDisjoint(panels)
    ensures AllDisjoint(Positions(ShiftAll(panels, delta)))
  {
    var s := Positions(ShiftAll(panels, delta));
    forall i, j | 0 <= i < j < |s| ensures Disjoint(s[i], s[j]) {
      assert Disjoint(panels[i].pos, panels[j].pos);
      assert s[i] == Shifted(panels[i], delta).pos && s[j] == Shifted(panels[j], delta).pos;
    }
  }

  lemma ShiftWithin(panels: seq<Panel>, top: int, y: int)
    requires AllBelow(panels, top)
    ensures Within(Positions(ShiftAll(panels, y - top)), y + 1)
  {}

  /** No overlap anywhere and no position above zero: rows stack in bands. */
  lemma {:induction false} RecomputedDisjoint(rows: seq<Row>, y: int)
    requires y >= 0 && forall r :: r in rows ==> RowOk(r)
    ensures AllDisjoint(Boxes(Recomputed(rows, y))) && Within(Boxes(Recomputed(rows, y)), y)
  {
    if rows != [] {
      var c := At(rows[0], y);
      RowBand(rows[0], y);
      RecomputedDisjoint(rows[1..], After(c));
      assert Recomputed(rows, y)[1..] == Recomputed(rows[1..], After(c));
      Stack(RowBoxes(c), Boxes(Recomputed(rows[1..], After(c))), After(c));
    }
  }

  lemma Stack(a: seq<Pos>, b: seq<Pos>, cut: int)
    requires AllDisjoint(a) && AllDisjoint(b)
    requires EndBy(a, cut) && Within(b, cut)
    ensures AllDisjoint(a + b)
  {
    var s := a + b;
    forall i, j | 0 <= i < j < |s| ensures Disjoint(s[i], s[j]) {
      if i < |a| && j >= |a| {
        assert s[j] == b[j - |a|];
      }
    }
  }

  /** The export of any run of tool calls, in any row order: headers and visible panels never overlap,
      stay within the 24 columns and have no negative position. */
  lemma AnyRunExportsDisjoint(ops: seq<Op>)
    requires forall i :: 0 <= i < |ops| ==> InRows(ops[i])
    ensures
      var shown := Recomputed(Run(EMPTY, ops).rows, 0);
      AllDisjoint(Boxes(shown)) && Within(Boxes(shown), 0)
  {
    RunKeeps(EMPTY, ops);
    RecomputedDisjoint(Run(EMPTY, ops).rows, 0);
  }

  // ----- top-level panels alone

  predicate OnTop(p: Pos, nextX: int, nextY: int, lineHeight: nat) {
    InGrid(p) && p.y >= 0 && p.Bottom() <= nextY && BehindCursor(p, nextX, nextY - lineHeight, lineHeight)
  }

  ghost predicate AllOnTop(panels: seq<Panel>, nextX: int, nextY: int, lineHeight: nat) {
    forall k :: 0 <= k < |panels| ==> OnTop(panels[k].pos, nextX, nextY, lineHeight)
  }

  ghost predicate TopOk(d: Dashboard) {
    && d.nextY >= d.lineHeight
    && 0 <= d.nextX <= COLUMNS && (d.lineHeight == 0 <==> d.nextX == 0)
    && PanelsDisjoint(d.panels)
    && AllOnTop(d.panels, d.nextX, d.nextY, d.lineHeight)
    && d.nextY == Lowest(d.panels, 0)
  }

  /** The new panel misses a panel behind the cursor, which stays behind the new cursor. */
  lemma TopBehind(d: Dashboard, b: Box, p: Pos)
    requires Flows(b) && d.nextY >= d.lineHeight && OnTop(p, d.nextX, d.nextY, d.lineHeight)
    ensures
      var (e, pos) := TopPlacement(d, b);
      Disjoint(p, pos) && OnTop(p, e.nextX, e.nextY, e.lineHeight)
  {}

  lemma TopCursor(d: Dashboard, b: Box)
    requires Flows(b) && d.nextY >= d.lineHeight && 0 <= d.nextX <= COLUMNS && (d.lineHeight == 0 <==> d.nextX == 0)
    ensures
      var (e, pos) := TopPlacement(d, b);
      && OnTop(pos, e.nextX, e.nextY, e.lineHeight) && e.nextY == Max(d.nextY, pos.Bottom())
      && e.nextY >= e.lineHeight && 0 < e.nextX <= COLUMNS && e.lineHeight > 0
  {}

  lemma TopStepKeeps(d: Dashboard, id: nat, b: Box)
    requires TopOk(d) && Flows(b)
    ensures TopOk(PutOnTop(d, id, b))
  {
    var (e, pos) := TopPlacement(d, b);
    TopCursor(d, b);
    forall k | 0 <= k < |d.panels|
      ensures Disjoint(d.panels[k].pos, pos) && OnTop(d.panels[k].pos, e.nextX, e.nextY, e.lineHeight)
    {
      TopBehind(d, b, d.panels[k].pos);
    }
    LowestSnoc(d.panels, Panel(id, pos), 0);
  }

  /** Any run of top-level panels placed by the flow is disjoint, inside the grid, and NextY is exactly the lowest
      edge. */
  lemma {:induction false} TopRunKeeps(d: Dashboard, ops: seq<Op>)
    requires TopOk(d)
    requires forall i :: 0 <= i < |ops| ==> ops[i].OpAddPanel? && ops[i].row.None? && Flows(ops[i].box)
    ensures TopOk(Run(d, ops))
    decreases |ops|
  {
    if ops != [] {
      TopStepKeeps(d, d.nextPanelId + 1, ops[0].box);
      TopRunKeeps(Next(d, ops[0]), ops[1..]);
    }
  }
}
