/**
 * Collision test and free-position search used when the editor places a
 * node (client/src/composable/useNodeCreation.ts, `checkCollision` and
 * `findFreePosition`). The layout constants are parameters.
 */
module Placement {
  import opened Wrappers
  import opened FlowModel

  /** NODE_WIDTH, NODE_HEIGHT, SAFETY_MARGIN, HORIZONTAL_SPACING, VERTICAL_SPACING */
  datatype Layout = Layout(nodeWidth: nat, nodeHeight: nat, safetyMargin: nat, horizontalSpacing: nat, verticalSpacing: nat)

  /** The optional search configuration; absent fields take the defaults 5, SAFETY_MARGIN and false. */
  datatype SearchConfig = SearchConfig(maxVerticalAttempts: Option<int>, verticalStep: Option<int>, mustResolve: Option<bool>)

  function Abs(v: int): nat {
    if v < 0 then -v else v
  }

  /** The literal test: the two margin-padded rectangles are not separated along either axis. */
  predicate Overlaps(L: Layout, x: int, y: int, n: Node) {
    var m := L.safetyMargin;
    !(x - m >= n.position.x + L.nodeWidth + m
      || x + L.nodeWidth + m <= n.position.x - m
      || y - m >= n.position.y + L.nodeHeight + m
      || y + L.nodeHeight + m <= n.position.y - m)
  }

  /** Centre distance strictly below the padded size on both axes. */
  predicate Near(L: Layout, x: int, y: int, n: Node) {
    Abs(x - n.position.x) < L.nodeWidth + 2 * L.safetyMargin
    && Abs(y - n.position.y) < L.nodeHeight + 2 * L.safetyMargin
  }

  /** The node skipped by the test: `excludeId && node.id === excludeId`. */
  predicate Skipped(n: Node, excludeId: Option<string>) {
    Truthy(excludeId) && n.id == excludeId.value
  }

  /** `checkCollision`: `some` over the store's nodes, skipping the excluded one. */
  function CheckCollision(L: Layout, ns: seq<Node>, x: int, y: int, excludeId: Option<string>): bool {
    if ns == [] then false
    else (!Skipped(ns[0], excludeId) && Overlaps(L, x, y, ns[0])) || CheckCollision(L, ns[1..], x, y, excludeId)
  }

  /** The padded rectangles overlap exactly when both centre distances are below the padded sizes. */
  lemma OverlapsIffNear(L: Layout, x: int, y: int, n: Node)
    ensures Overlaps(L, x, y, n) <==> Near(L, x, y, n)
  {
  }

  /** A collision is some non-excluded node strictly closer than the padded size on both axes; touching is not colliding. */
  lemma {:induction false} CheckCollisionIff(L: Layout, ns: seq<Node>, x: int, y: int, excludeId: Option<string>)
    ensures CheckCollision(L, ns, x, y, excludeId)
      <==> exists i :: 0 <= i < |ns| && !Skipped(ns[i], excludeId) && Near(L, x, y, ns[i])
  {
    if ns != [] {
      CheckCollisionIff(L, ns[1..], x, y, excludeId);
      OverlapsIffNear(L, x, y, ns[0]);
      assert forall i :: 1 <= i < |ns| ==> ns[i] == ns[1..][i - 1];
      if exists i :: 0 <= i < |ns| && !Skipped(ns[i], excludeId) && Near(L, x, y, ns[i]) {
        var i :| 0 <= i < |ns| && !Skipped(ns[i], excludeId) && Near(L, x, y, ns[i]);
        if i > 0 {
          assert ns[1..][i - 1] == ns[i];
        }
      }
    }
  }

  /** The horizontal probe order `[0, m, -m, 2m, -2m]`. */
  function Offsets(L: Layout): (r: seq<int>)
    ensures |r| == 5 && r[0] == 0
  {
    var m: int := L.safetyMargin;
    [0, m, -m, m * 2, -m * 2]
  }

  predicate Blocked(L: Layout, ns: seq<Node>, px: int, y: int, excludeId: Option<string>, k: int)
    requires 0 <= k < 5
  {
    CheckCollision(L, ns, px + Offsets(L)[k], y, excludeId)
  }

  /** The index of the first free offset at or after `k` on row `y`. */
  function FirstFree(L: Layout, ns: seq<Node>, px: int, y: int, excludeId: Option<string>, k: nat): (r: Option<nat>)
    requires k <= 5
    decreases 5 - k
    ensures r.None? ==> forall j :: k <= j < 5 ==> Blocked(L, ns, px, y, excludeId, j)
    ensures r.Some? ==> (k <= r.value < 5 && !Blocked(L, ns, px, y, excludeId, r.value)
      && forall j :: k <= j < r.value ==> Blocked(L, ns, px, y, excludeId, j))
  {
    if k == 5 then None
    else if !Blocked(L, ns, px, y, excludeId, k) then Some(k)
    else FirstFree(L, ns, px, y, excludeId, k + 1)
  }

  function RowY(py: int, step: int, i: int): int {
    py + i * step
  }

  predicate RowBlocked(L: Layout, ns: seq<Node>, px: int, py: int, step: int, i: int, excludeId: Option<string>) {
    FirstFree(L, ns, px, RowY(py, step, i), excludeId, 0).None?
  }

  datatype Hit = Hit(row: int, index: nat)

  /** The first row in `lo..hi` with a free offset, and that offset. */
  function ScanRows(L: Layout, ns: seq<Node>, px: int, py: int, step: int, excludeId: Option<string>, lo: int, hi: int): (r: Option<Hit>)
    decreases hi + 1 - lo
    ensures r.None? ==> forall i :: lo <= i <= hi ==> RowBlocked(L, ns, px, py, step, i, excludeId)
    ensures r.Some? ==> (lo <= r.value.row <= hi
      && FirstFree(L, ns, px, RowY(py, step, r.value.row), excludeId, 0) == Some(r.value.index)
      && forall i :: lo <= i < r.value.row ==> RowBlocked(L, ns, px, py, step, i, excludeId))
  {
    if hi < lo then None
    else
      match FirstFree(L, ns, px, RowY(py, step, lo), excludeId, 0)
      case Some(k) => Some(Hit(lo, k))
      case None => ScanRows(L, ns, px, py, step, excludeId, lo + 1, hi)
  }

  /** How a search ended. */
  datatype Outcome = Preferred | SameRow(index: nat) | LowerRow(row: int, index: nat) | Degraded

  function MaxAttempts(cfg: SearchConfig): int { cfg.maxVerticalAttempts.GetOr(5) }
  function Step(L: Layout, cfg: SearchConfig): int { cfg.verticalStep.GetOr(L.safetyMargin) }
  function MustResolve(cfg: SearchConfig): bool { cfg.mustResolve.GetOr(false) }

  /** The rows a search may visit: `1..max`, and `max+1..max+60` when it must resolve. */
  predicate InBudget(cfg: SearchConfig, i: int) {
    1 <= i <= MaxAttempts(cfg) || (MustResolve(cfg) && MaxAttempts(cfg) + 1 <= i <= MaxAttempts(cfg) + 60)
  }

  /** The outcome of `findFreePosition`, characterised probe by probe. */
  function Search(L: Layout, ns: seq<Node>, px: int, py: int, excludeId: Option<string>, cfg: SearchConfig): (r: Outcome)
    ensures r.Preferred? <==> !CheckCollision(L, ns, px, py, excludeId)
    ensures r.SameRow? ==> (r.index < 5 && !Blocked(L, ns, px, py, excludeId, r.index)
      && forall j :: 0 <= j < r.index ==> Blocked(L, ns, px, py, excludeId, j))
    ensures r.LowerRow? ==> (CheckCollision(L, ns, px, py, excludeId)
      && RowBlocked(L, ns, px, py, 0, 0, excludeId)
      && InBudget(cfg, r.row) && r.index < 5
      && !Blocked(L, ns, px, RowY(py, Step(L, cfg), r.row), excludeId, r.index)
      && (forall j :: 0 <= j < r.index ==> Blocked(L, ns, px, RowY(py, Step(L, cfg), r.row), excludeId, j))
      && forall i :: 1 <= i < r.row ==> RowBlocked(L, ns, px, py, Step(L, cfg), i, excludeId))
    ensures r.Degraded? <==> (CheckCollision(L, ns, px, py, excludeId)
      && RowBlocked(L, ns, px, py, 0, 0, excludeId)
      && forall i :: InBudget(cfg, i) ==> RowBlocked(L, ns, px, py, Step(L, cfg), i, excludeId))
  {
    var step := Step(L, cfg);
    var maxV := MaxAttempts(cfg);
    if !CheckCollision(L, ns, px, py, excludeId) then Preferred
    else
      assert RowY(py, 0, 0) == py;
      match FirstFree(L, ns, px, py, excludeId, 0)
      case Some(k) => SameRow(k)
      case None =>
        match ScanRows(L, ns, px, py, step, excludeId, 1, maxV)
        case Some(h) =>
          assert InBudget(cfg, h.row) && !RowBlocked(L, ns, px, py, step, h.row, excludeId);
          LowerRow(h.row, h.index)
        case None =>
          if !MustResolve(cfg) then Degraded
          else
            match ScanRows(L, ns, px, py, step, excludeId, maxV + 1, maxV + 60)
            case Some(h) =>
              assert InBudget(cfg, h.row) && !RowBlocked(L, ns, px, py, step, h.row, excludeId);
              LowerRow(h.row, h.index)
            case None => Degraded
  }

  /** The point returned for each outcome; a lower-row hit is shifted 20 to the left. */
  function PointOf(L: Layout, px: int, py: int, cfg: SearchConfig, o: Outcome): Position
    requires (o.SameRow? || o.LowerRow?) ==> o.index < 5
  {
    match o
    case Preferred => Position(px, py)
    case SameRow(k) => Position(px + Offsets(L)[k], py)
    case LowerRow(i, k) => Position(px + Offsets(L)[k] - 20, RowY(py, Step(L, cfg), i))
    case Degraded => Position(px, py)
  }

  function FreePosition(L: Layout, ns: seq<Node>, px: int, py: int, excludeId: Option<string>, cfg: SearchConfig): Position {
    PointOf(L, px, py, cfg, Search(L, ns, px, py, excludeId, cfg))
  }

  /** A point on the preferred row is always one that was checked free; a degraded search returns the preferred point. */
  lemma FreePositionOnPreferredRow(L: Layout, ns: seq<Node>, px: int, py: int, excludeId: Option<string>, cfg: SearchConfig)
    ensures var o := Search(L, ns, px, py, excludeId, cfg);
      var r := FreePosition(L, ns, px, py, excludeId, cfg);
      (o.Preferred? || o.SameRow?) ==> r.y == py && !CheckCollision(L, ns, r.x, r.y, excludeId)
    ensures Search(L, ns, px, py, excludeId, cfg).Degraded? ==> FreePosition(L, ns, px, py, excludeId, cfg) == Position(px, py)
  {
  }

  /** A lower-row result: the point 20 to its right was checked free, on an allowed row below the preferred one. */
  lemma FreePositionLowerRow(L: Layout, ns: seq<Node>, px: int, py: int, excludeId: Option<string>, cfg: SearchConfig)
    requires Search(L, ns, px, py, excludeId, cfg).LowerRow?
    ensures var o := Search(L, ns, px, py, excludeId, cfg);
      var r := FreePosition(L, ns, px, py, excludeId, cfg);
      r.y == py + o.row * Step(L, cfg) && InBudget(cfg, o.row)
      && r.x - px + 20 in Offsets(L)
      && !CheckCollision(L, ns, r.x + 20, r.y, excludeId)
  {
    var o := Search(L, ns, px, py, excludeId, cfg);
    assert Offsets(L)[o.index] in Offsets(L);
  }

  /** Nested probe loop of one row: the first free offset index, if any. */
  method ProbeRow(L: Layout, ns: seq<Node>, px: int, y: int, excludeId: Option<string>) returns (found: Option<nat>)
    ensures found == FirstFree(L, ns, px, y, excludeId, 0)
  {
    var offsets := Offsets(L);
    var k := 0;
    while k < |offsets|
      invariant 0 <= k <= 5
      invariant FirstFree(L, ns, px, y, excludeId, 0) == FirstFree(L, ns, px, y, excludeId, k)
    {
      var x := px + offsets[k];
      if !CheckCollision(L, ns, x, y, excludeId) {
        return Some(k);
      }
      k := k + 1;
    }
    return None;
  }

  /** Outer row loop `for (let i = lo; i <= hi; i++)` with early return. */
  method ProbeRows(L: Layout, ns: seq<Node>, px: int, py: int, step: int, excludeId: Option<string>, lo: int, hi: int) returns (hit: Option<Hit>)
    ensures hit == ScanRows(L, ns, px, py, step, excludeId, lo, hi)
  {
    var i := lo;
    while i <= hi
      invariant lo <= i && (lo <= hi ==> i <= hi + 1)
      invariant ScanRows(L, ns, px, py, step, excludeId, lo, hi) == ScanRows(L, ns, px, py, step, excludeId, i, hi)
      decreases hi + 1 - i
    {
      var candidateY := py + i * step;
      var found := ProbeRow(L, ns, px, candidateY, excludeId);
      if found.Some? {
        return Some(Hit(i, found.value));
      }
      i := i + 1;
    }
    return None;
  }

  /** `findFreePosition`: the preferred point, then the row probes, else the preferred point again. */
  method FindFreePosition(L: Layout, ns: seq<Node>, px: int, py: int, excludeId: Option<string>, cfg: SearchConfig) returns (r: Position)
    ensures r == FreePosition(L, ns, px, py, excludeId, cfg)
  {
    if !CheckCollision(L, ns, px, py, excludeId) {
      return Position(px, py);
    }
    var offsets := Offsets(L);
    var sameRow := ProbeRow(L, ns, px, py, excludeId);
    if sameRow.Some? {
      return Position(px + offsets[sameRow.value], py);
    }
    var maxVerticalAttempts := cfg.maxVerticalAttempts.GetOr(5);
    var verticalStep := cfg.verticalStep.GetOr(L.safetyMargin);
    var mustResolve := cfg.mustResolve.GetOr(false);
    var hit := ProbeRows(L, ns, px, py, verticalStep, excludeId, 1, maxVerticalAttempts);
    if hit.Some? {
      return Position(px + offsets[hit.value.index] - 20, py + hit.value.row * verticalStep);
    }
    if mustResolve {
      var extraLimit := maxVerticalAttempts + 60;
      hit := ProbeRows(L, ns, px, py, verticalStep, excludeId, maxVerticalAttempts + 1, extraLimit);
      if hit.Some? {
        return Position(px + offsets[hit.value.index] - 20, py + hit.value.row * verticalStep);
      }
    }
    return Position(px, py);
  }
}

module PlacementExample {
  import opened Wrappers
  import opened FlowModel
  import opened Placement

  function ExampleNode(id: string, x: int, y: int): Node {
    Node(id, "end", Position(x, y), NodeData("Fim", None, None, None, EmptySettings))
  }

  /**
   * The 20-unit shift applied to a lower-row hit is not re-checked: with a
   * node at the preferred point and one down and to the left, the returned
   * point overlaps the second node.
   */
  lemma ShiftedPointMayCollide()
    ensures var L := Layout(150, 60, 20, 200, 100);
      var ns := [ExampleNode("a", 0, 0), ExampleNode("b", -190, 100)];
      var cfg := SearchConfig(Some(5), Some(20), None);
      Search(L, ns, 0, 0, None, cfg) == LowerRow(5, 0)
      && FreePosition(L, ns, 0, 0, None, cfg) == Position(-20, 100)
      && CheckCollision(L, ns, -20, 100, None)
  {
    ExampleSearch();
    assert Offsets(Layout(150, 60, 20, 200, 100))[0] == 0;
  }

  /** The search of that example ends on the fifth row below, at offset 0. */
  lemma ExampleSearch()
    ensures Search(Layout(150, 60, 20, 200, 100), [ExampleNode("a", 0, 0), ExampleNode("b", -190, 100)],
      0, 0, None, SearchConfig(Some(5), Some(20), None)) == LowerRow(5, 0)
  {
    var L := Layout(150, 60, 20, 200, 100);
    var ns := [ExampleNode("a", 0, 0), ExampleNode("b", -190, 100)];
    forall i | 1 <= i <= 4 ensures RowBlocked(L, ns, 0, 0, 20, i, None) {
      assert ns[0].position == Position(0, 0);
    }
    assert !Blocked(L, ns, 0, 100, None, 0);
    assert FirstFree(L, ns, 0, RowY(0, 20, 5), None, 0) == Some(0);
    assert CheckCollision(L, ns, 0, 0, None);
    assert FirstFree(L, ns, 0, 0, None, 0).None?;
    var scan := ScanRows(L, ns, 0, 0, 20, None, 1, 5);
    assert scan.Some? && scan.value.row == 5;
  }
}
