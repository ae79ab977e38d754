/** The chunks a bot looks at: the search queue of `actionAttack`/`actionEat`
    (its own chunk, or the existing chunks of the 3×3 block around it) and
    the rectangle of `getChunksInRadius`. */
module Areas {
  import opened Vectors
  import opened Chunks

  /** The non-null entries of `s`, in order. */
  function Present(s: seq<Chunk?>): seq<Chunk>
  {
    if |s| == 0 then [] else Present(s[..|s| - 1]) + (if s[|s| - 1] != null then [s[|s| - 1]] else [])
  }

  lemma PresentStep(s: seq<Chunk?>, n: nat)
    requires n < |s|
    ensures Present(s[..n + 1]) == Present(s[..n]) + (if s[n] != null then [s[n]] else [])
  {
    assert s[..n + 1][..|s[..n + 1]| - 1] == s[..n];
  }

  lemma {:induction false} PresentMember(s: seq<Chunk?>, c: Chunk)
    ensures c in Present(s) <==> c in s
  {
    if |s| > 0 {
      PresentMember(s[..|s| - 1], c);
      assert s == s[..|s| - 1] + [s[|s| - 1]];
    }
  }

  /** `getChunk` at the nine cells around (x, y), `y` offset in the outer
      loop and `x` offset in the inner one, each from -1 to 1. */
  function BlockCells(m: ChunkManager, x: int, y: int): (cells: seq<Chunk?>)
    requires m.Valid()
    ensures |cells| == 9
  {
    seq(9, j requires 0 <= j < 9 => m.GetChunk(x + j % 3 - 1, y + j / 3 - 1))
  }

  /** The queue the 3×3 loops build: the existing chunks of the block. */
  function Block(m: ChunkManager, x: int, y: int): seq<Chunk>
    requires m.Valid()
  {
    Present(BlockCells(m, x, y))
  }

  /** The nested loops that fill the queue with the block's existing chunks. */
  method BlockQueue(m: ChunkManager, x: int, y: int) returns (queue: seq<Chunk>)
    requires m.Valid()
    ensures queue == Block(m, x, y)
  {
    ghost var cells := BlockCells(m, x, y);
    queue := [];
    var dy := -1;
    while dy < 2
      invariant -1 <= dy <= 2
      invariant queue == Present(cells[..3 * (dy + 1)])
    {
      var dx := -1;
      while dx < 2
        invariant -1 <= dx <= 2
        invariant queue == Present(cells[..3 * (dy + 1) + (dx + 1)])
      {
        var n := 3 * (dy + 1) + (dx + 1);
        assert n % 3 - 1 == dx && n / 3 - 1 == dy;
        PresentStep(cells, n);
        var neighbor := m.GetChunk(x + dx, y + dy);
        if neighbor != null {
          queue := queue + [neighbor];
        }
        dx := dx + 1;
      }
      dy := dy + 1;
    }
    assert cells[..9] == cells;
  }

  /** The block holds exactly the chunks of the grid at most one column and
      one row away from (x, y); in particular the chunk at (x, y) itself. */
  lemma BlockIsNeighbourhood(m: ChunkManager, x: int, y: int, c: Chunk)
    requires m.Valid()
    ensures c in Block(m, x, y) <==>
      c in m.Repr && x - 1 <= c.xIndex <= x + 1 && y - 1 <= c.yIndex <= y + 1
  {
    var cells := BlockCells(m, x, y);
    PresentMember(cells, c);
    if c in cells {
      var j :| 0 <= j < 9 && cells[j] == c;
      assert c == m.GetChunk(x + j % 3 - 1, y + j / 3 - 1);
    }
    if c in m.Repr && x - 1 <= c.xIndex <= x + 1 && y - 1 <= c.yIndex <= y + 1 {
      ReprCell(m, c);
      var j := 3 * (c.yIndex - y + 1) + (c.xIndex - x + 1);
      assert j % 3 - 1 == c.xIndex - x && j / 3 - 1 == c.yIndex - y;
      assert cells[j] == c;
    }
  }

  /** The search queue of `actionAttack`/`actionEat`: the bot's own chunk when
      both `pos - radius` and `pos + radius` lie inside it, otherwise the
      block around it. */
  function SearchArea(m: ChunkManager, own: Chunk, pos: Vec2, radius: int): seq<Chunk>
    requires m.Valid()
  {
    if !own.IsPosInsideChunk(pos.SubScalar(radius as real)) || !own.IsPosInsideChunk(pos.AddScalar(radius as real))
    then Block(m, own.xIndex, own.yIndex)
    else [own]
  }

  /** The queue building of `actionAttack`/`actionEat`. */
  method SearchQueue(m: ChunkManager, own: Chunk, pos: Vec2, radius: int) returns (queue: seq<Chunk>)
    requires m.Valid()
    ensures queue == SearchArea(m, own, pos, radius)
  {
    if !own.IsPosInsideChunk(pos.SubScalar(radius as real)) || !own.IsPosInsideChunk(pos.AddScalar(radius as real)) {
      queue := BlockQueue(m, own.xIndex, own.yIndex);
    } else {
      queue := [own];
    }
  }

  /** Every chunk searched belongs to the grid, and a grid chunk searches
      itself. */
  lemma SearchAreaInGrid(m: ChunkManager, own: Chunk, pos: Vec2, radius: int)
    requires m.Valid() && own in m.Repr
    ensures forall c :: c in SearchArea(m, own, pos, radius) ==> c in m.Repr
    ensures own in SearchArea(m, own, pos, radius)
  {
    forall c | c in Block(m, own.xIndex, own.yIndex)
      ensures c in m.Repr
    {
      BlockIsNeighbourhood(m, own.xIndex, own.yIndex, c);
    }
    BlockIsNeighbourhood(m, own.xIndex, own.yIndex, own);
  }

  /** The row `y` of the rectangle: `getChunk(x, y)` for x from `sx` to `ex`. */
  function Row(m: ChunkManager, sx: int, ex: int, y: int): seq<Chunk?>
    requires m.Valid()
    decreases ex - sx
  {
    if ex < sx then [] else Row(m, sx, ex - 1, y) + [m.GetChunk(ex, y)]
  }

  /** The index ranges of a rectangle of chunks: columns `sx..ex`, rows
      `sy..ey`, both ends included. */
  datatype Bounds = Bounds(sx: int, sy: int, ex: int, ey: int)

  /** The corners `getChunksInRadius` looks up: the chunks of `position -
      radius` and `position + radius`; a missing top-left corner means column
      and row 0, a missing bottom-right one the last column and row. */
  function RadiusBounds(m: ChunkManager, position: IVec2, radius: int): (b: Bounds)
    requires m.Valid()
    ensures 0 <= b.sx && 0 <= b.sy && b.ex < m.numberOfChunksX && b.ey < m.numberOfChunksY
  {
    var topLeft := m.WhatChunkHere(position.SubScalar(radius).ToReal());
    var bottomRight := m.WhatChunkHere(position.AddScalar(radius).ToReal());
    Bounds(if topLeft != null then topLeft.xIndex else 0,
           if topLeft != null then topLeft.yIndex else 0,
           if bottomRight != null then bottomRight.xIndex else m.numberOfChunksX - 1,
           if bottomRight != null then bottomRight.yIndex else m.numberOfChunksY - 1)
  }

  /** The inner loop of `getChunksInRadius`: one row, left to right. */
  method RowChunks(m: ChunkManager, sx: int, ex: int, y: int) returns (row: seq<Chunk?>)
    requires m.Valid()
    ensures row == Row(m, sx, ex, y)
  {
    row := [];
    if ex < sx {
      return;
    }
    var x := sx;
    while x <= ex
      invariant sx <= x <= ex + 1
      invariant row == Row(m, sx, x - 1, y)
    {
      row := row + [m.GetChunk(x, y)];
      x := x + 1;
    }
  }

  /** `getChunksInRadius`: the corners, then `y` from the top row to the
      bottom one and, within a row, `x` from left to right. */
  method ChunksInRadius(m: ChunkManager, position: IVec2, radius: int) returns (chunks: seq<Chunk?>)
    requires m.Valid()
    ensures chunks == Rect(m, RadiusBounds(m, position, radius))
  {
    var b := RadiusBounds(m, position, radius);
    chunks := [];
    if b.ey < b.sy {
      return;
    }
    var y := b.sy;
    while y <= b.ey
      invariant b.sy <= y <= b.ey + 1
      invariant chunks == Rect(m, b.(ey := y - 1))
    {
      var row := RowChunks(m, b.sx, b.ex, y);
      chunks := chunks + row;
      y := y + 1;
    }
  }

  /** The rectangle, rows `sy` to `ey` in order. */
  function Rect(m: ChunkManager, b: Bounds): seq<Chunk?>
    requires m.Valid()
    decreases b.ey - b.sy
  {
    if b.ey < b.sy then [] else Rect(m, b.(ey := b.ey - 1)) + Row(m, b.sx, b.ex, b.ey)
  }

  /** Number of indexes from `lo` to `hi`, both included. */
  function Span(lo: int, hi: int): nat { if hi < lo then 0 else hi - lo + 1 }

  predicate Distinct(s: seq<Chunk?>)
  {
    forall i, j :: 0 <= i < j < |s| ==> s[i] != s[j]
  }

  /** A bounds rectangle lies inside the grid. */
  predicate Within(m: ChunkManager, b: Bounds)
  {
    0 <= b.sx && 0 <= b.sy && b.ex < m.numberOfChunksX && b.ey < m.numberOfChunksY
  }

  lemma {:induction false} RowLength(m: ChunkManager, sx: int, ex: int, y: int)
    requires m.Valid()
    ensures |Row(m, sx, ex, y)| == Span(sx, ex)
    decreases ex - sx
  {
    if sx <= ex {
      RowLength(m, sx, ex - 1, y);
    }
  }

  lemma {:induction false} RowMember(m: ChunkManager, sx: int, ex: int, y: int, c: Chunk?)
    requires m.Valid() && 0 <= sx && ex < m.numberOfChunksX && 0 <= y < m.numberOfChunksY
    ensures c in Row(m, sx, ex, y) <==> c != null && c in m.Repr && sx <= c.xIndex <= ex && c.yIndex == y
    decreases ex - sx
  {
    if sx <= ex {
      RowMember(m, sx, ex - 1, y, c);
      if c != null && c in m.Repr {
        ReprCell(m, c);
      }
    }
  }

  lemma {:induction false} RowDistinct(m: ChunkManager, sx: int, ex: int, y: int)
    requires m.Valid() && 0 <= sx && ex < m.numberOfChunksX && 0 <= y < m.numberOfChunksY
    ensures Distinct(Row(m, sx, ex, y))
    decreases ex - sx
  {
    if sx <= ex {
      var front := Row(m, sx, ex - 1, y);
      RowDistinct(m, sx, ex - 1, y);
      forall i | 0 <= i < |front|
        ensures front[i] != m.GetChunk(ex, y)
      {
        RowMember(m, sx, ex - 1, y, front[i]);
      }
      DistinctConcat(front, [m.GetChunk(ex, y)]);
    }
  }

  /** The rectangle has one entry per (column, row) of its index ranges. */
  lemma {:induction false} RectLength(m: ChunkManager, b: Bounds)
    requires m.Valid()
    ensures |Rect(m, b)| == Span(b.sx, b.ex) * Span(b.sy, b.ey)
    decreases b.ey - b.sy
  {
    if b.sy <= b.ey {
      RectLength(m, b.(ey := b.ey - 1));
      RowLength(m, b.sx, b.ex, b.ey);
      assert Span(b.sy, b.ey) == Span(b.sy, b.ey - 1) + 1;
      MulSucc(Span(b.sx, b.ex), Span(b.sy, b.ey - 1));
    }
  }

  lemma MulSucc(a: nat, n: nat)
    ensures a * (n + 1) == a * n + a
  {
  }

  /** Inside the grid, the rectangle holds exactly the grid chunks whose
      indexes lie in its ranges; an empty range gives no chunk at all. */
  lemma {:induction false} RectMember(m: ChunkManager, b: Bounds, c: Chunk?)
    requires m.Valid() && Within(m, b)
    ensures c in Rect(m, b) <==>
      c != null && c in m.Repr && b.sx <= c.xIndex <= b.ex && b.sy <= c.yIndex <= b.ey
    decreases b.ey - b.sy
  {
    if b.sy <= b.ey {
      RectMember(m, b.(ey := b.ey - 1), c);
      RowMember(m, b.sx, b.ex, b.ey, c);
    }
  }

  /** Inside the grid, no chunk appears twice in the rectangle. */
  lemma {:induction false} RectDistinct(m: ChunkManager, b: Bounds)
    requires m.Valid() && Within(m, b)
    ensures Distinct(Rect(m, b))
    decreases b.ey - b.sy
  {
    if b.sy <= b.ey {
      var above, row := Rect(m, b.(ey := b.ey - 1)), Row(m, b.sx, b.ex, b.ey);
      RectDistinct(m, b.(ey := b.ey - 1));
      RowDistinct(m, b.sx, b.ex, b.ey);
      forall i, j | 0 <= i < |above| && 0 <= j < |row|
        ensures above[i] != row[j]
      {
        RectMember(m, b.(ey := b.ey - 1), above[i]);
        RowMember(m, b.sx, b.ex, b.ey, row[j]);
      }
      DistinctConcat(above, row);
    }
  }

  /** The chunks `getChunksInRadius` returns are the grid chunks between the
      corner chunks, each once and none of them null. */
  lemma RadiusChunks(m: ChunkManager, position: IVec2, radius: int, c: Chunk?)
    requires m.Valid()
    ensures var b := RadiusBounds(m, position, radius);
      && Distinct(Rect(m, b))
      && (c in Rect(m, b) <==> c != null && c in m.Repr && b.sx <= c.xIndex <= b.ex && b.sy <= c.yIndex <= b.ey)
  {
    var b := RadiusBounds(m, position, radius);
    RectDistinct(m, b);
    RectMember(m, b, c);
  }

  /** Every chunk `getChunksInRadius` returns belongs to the grid. */
  lemma RadiusChunksInGrid(m: ChunkManager, position: IVec2, radius: int)
    requires m.Valid()
    ensures forall c :: c in Present(Rect(m, RadiusBounds(m, position, radius))) ==> c in m.Repr
  {
    forall c | c in Present(Rect(m, RadiusBounds(m, position, radius)))
      ensures c in m.Repr
    {
      PresentMember(Rect(m, RadiusBounds(m, position, radius)), c);
      RadiusChunks(m, position, radius, c);
    }
  }

  lemma DistinctConcat(a: seq<Chunk?>, b: seq<Chunk?>)
    requires Distinct(a) && Distinct(b)
    requires forall i, j :: 0 <= i < |a| && 0 <= j < |b| ==> a[i] != b[j]
    ensures Distinct(a + b)
  {
  }
}
