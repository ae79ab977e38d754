/** The spatial grid: a fixed row-major matrix of square chunks, each holding
    the set of IDs of the objects placed in it. An object's back-pointer to its
    chunk is a `ChunkRef` (the chunk's indexes), kept by the object itself. */
module Chunks {
  import opened Vectors
  import RangeValues

  /** A reference to a chunk by its (column, row) indexes. */
  datatype ChunkRef = ChunkRef(x: int, y: int)

  /** The chunk multipliers start at 1 in [0, 2]; only the user interface
      changes them. */
  const DefaultMultiplier := RangeValues.Range(1.0, 0.0, 2.0)

  class Chunk {
    const xIndex: int
    const yIndex: int
    const chunkSize: real
    const startPos: Vec2
    const endPos: Vec2
    const seeDistanceMultiplier: RangeValues.Range
    var objects: set<nat>

    constructor (startX: real, startY: real, chunkSize_: real, xIndex_: int, yIndex_: int)
      ensures xIndex == xIndex_ && yIndex == yIndex_ && chunkSize == chunkSize_
      ensures startPos == Vec2(startX, startY)
      ensures endPos == Vec2(startX + chunkSize_, startY + chunkSize_)
      ensures seeDistanceMultiplier == DefaultMultiplier
      ensures objects == {}
    {
      xIndex, yIndex, chunkSize := xIndex_, yIndex_, chunkSize_;
      startPos := Vec2(startX, startY);
      endPos := Vec2(startX + chunkSize_, startY + chunkSize_);
      seeDistanceMultiplier := DefaultMultiplier;
      objects := {};
    }

    function Ref(): ChunkRef { ChunkRef(xIndex, yIndex) }

    function GetSeeDistanceMultiplier(): real { seeDistanceMultiplier.value }

    /** `addObject`: inserts the object (a set keeps one entry however often it
        is added) and returns the back-pointer the object is to store. */
    method AddObject(key: nat) returns (backPointer: ChunkRef)
      modifies this`objects
      ensures objects == old(objects) + {key}
      ensures backPointer == Ref()
    {
      backPointer := Ref();
      objects := objects + {key};
    }

    /** `removeObject`: erases the object when it is a member; otherwise no
        change. No other member is touched. */
    method RemoveObject(key: nat)
      modifies this`objects
      ensures objects == old(objects) - {key}
      ensures key !in old(objects) ==> objects == old(objects)
      ensures key in old(objects) ==> |objects| == |old(objects)| - 1
    {
      if key in objects {
        objects := objects - {key};
      }
    }

    /** `moveToChunk`: adds the object to `dest`, points it at `dest`, then
        erases it from this chunk. When `dest` is this chunk, the erase undoes
        the add: the object is in no chunk although it points at this one. */
    method MoveToChunk(key: nat, dest: Chunk) returns (backPointer: ChunkRef)
      modifies this`objects, dest`objects
      ensures dest != this ==> dest.objects == old(dest.objects) + {key}
      ensures dest != this ==> objects == old(objects) - {key}
      ensures dest == this ==> objects == old(objects) - {key} && key !in objects
      ensures backPointer == dest.Ref()
    {
      var _ := dest.AddObject(key);
      backPointer := dest.Ref();
      objects := objects - {key};
    }

    predicate IsObjectInChunk(key: nat)
      reads this
    {
      key in objects
    }

    /** `isPosInsideChunk`: inclusive on every edge. */
    predicate IsPosInsideChunk(p: Vec2)
    {
      startPos.Le(p) && p.Le(endPos)
    }
  }

  /** What the grid's constructor builds at column `x`, row `y`. */
  ghost predicate ChunkAt(c: Chunk, x: int, y: int, size: real)
  {
    && c.xIndex == x && c.yIndex == y && c.chunkSize == size
    && c.startPos == Vec2(CellStart(x, size), CellStart(y, size))
    && c.endPos == Vec2(CellStart(x, size) + size, CellStart(y, size) + size)
    && c.seeDistanceMultiplier == DefaultMultiplier
  }

  /** `x * chunkSize`: where cell `x` of an axis starts. */
  function CellStart(x: int, size: real): real { x as real * size }

  /** The rows of the matrix laid end to end. */
  function Flatten(rows: seq<seq<Chunk>>): seq<Chunk>
  {
    if rows == [] then [] else Flatten(rows[..|rows| - 1]) + rows[|rows| - 1]
  }

  /** Index of the column (or row) holding coordinate `c`, as `whatChunkHere`
      computes it: one is subtracted before dividing. */
  function AxisIndexAsWritten(c: real, size: real): int
    requires size > 0.0
  {
    Trunc(RangeValues.Max(0.0, c - 1.0) / size)
  }

  /** The index the lookup is meant to give: the cell containing `c`, where a
      point on the far edge of the map belongs to the last cell. */
  function AxisIndex(c: real, size: real, n: nat): int
    requires size > 0.0
  {
    if n > 0 && c == CellStart(n, size) then n - 1 else Trunc(RangeValues.Max(0.0, c) / size)
  }

  class ChunkManager {
    const chunkSize: real
    const numberOfChunksX: nat
    const numberOfChunksY: nat
    const mapWidth: real
    const mapHeight: real
    const chunks: seq<seq<Chunk>>
    ghost const Repr: set<Chunk>

    ghost predicate Valid()
    {
      && chunkSize > 0.0
      && mapWidth == CellStart(numberOfChunksX, chunkSize)
      && mapHeight == CellStart(numberOfChunksY, chunkSize)
      && 0.0 <= mapWidth && 0.0 <= mapHeight
      && |chunks| == numberOfChunksY
      && (forall y :: 0 <= y < |chunks| ==> |chunks[y]| == numberOfChunksX)
      && (forall y, x :: 0 <= y < |chunks| && 0 <= x < |chunks[y]| ==> ChunkAt(chunks[y][x], x, y, chunkSize))
      && (forall y, x :: 0 <= y < |chunks| && 0 <= x < |chunks[y]| ==> chunks[y][x] in Repr)
      && (forall c :: c in Repr ==> c in Flatten(chunks))
    }

    predicate InGrid(x: int, y: int)
    {
      0 <= x < numberOfChunksX && 0 <= y < numberOfChunksY
    }

    /** Builds `numberOfChunksY_` rows of `numberOfChunksX_` empty chunks, chunk
        (x, y) starting at (x·size, y·size). */
    constructor (numberOfChunksX_: nat, numberOfChunksY_: nat, chunkSize_: real)
      requires chunkSize_ > 0.0
      ensures Valid()
      ensures numberOfChunksX == numberOfChunksX_ && numberOfChunksY == numberOfChunksY_
      ensures chunkSize == chunkSize_
      ensures fresh(Repr)
      ensures forall c :: c in Repr ==> c.objects == {}
    {
      var rows := BuildRows(numberOfChunksX_, numberOfChunksY_, chunkSize_);
      chunkSize := chunkSize_;
      numberOfChunksX, numberOfChunksY := numberOfChunksX_, numberOfChunksY_;
      mapWidth := CellStart(numberOfChunksX_, chunkSize_);
      mapHeight := CellStart(numberOfChunksY_, chunkSize_);
      chunks := rows;
      Repr := set c | c in Flatten(rows);
      new;
      forall y, x | 0 <= y < |rows| && 0 <= x < |rows[y]|
        ensures rows[y][x] in Repr
      {
        FlattenMember(rows, y, x);
      }
      forall c | c in Repr
        ensures fresh(c) && c.objects == {}
      {
        FlattenSource(rows, c);
      }
      CellStartMono(0, numberOfChunksX_, chunkSize_);
      CellStartMono(0, numberOfChunksY_, chunkSize_);
    }

    /** `getChunk`: the chunk at column `x`, row `y`, or null off the grid. */
    function GetChunk(x: int, y: int): (c: Chunk?)
      requires Valid()
      ensures c != null <==> InGrid(x, y)
      ensures c != null ==> c == chunks[y][x] && c.Ref() == ChunkRef(x, y) && c in Repr
    {
      if InGrid(x, y) then chunks[y][x] else null
    }

    /** `whatChunkHere` as written. */
    function WhatChunkHereAsWritten(p: Vec2): Chunk?
      requires Valid()
    {
      GetChunk(AxisIndexAsWritten(p.x, chunkSize), AxisIndexAsWritten(p.y, chunkSize))
    }

    /** The lookup the rest of the model uses: the chunk containing `p`. */
    function WhatChunkHere(p: Vec2): Chunk?
      requires Valid()
    {
      GetChunk(AxisIndex(p.x, chunkSize, numberOfChunksX), AxisIndex(p.y, chunkSize, numberOfChunksY))
    }

    function Begin(): (it: IteratorState) { IteratorState(0, 0) }
    function End(): (it: IteratorState) { IteratorState(|chunks|, 0) }

    /** A range-for over the manager: starts at `begin()`, dereferences and
        increments until `end()`. Every chunk is visited exactly once, rows in
        order, each row left to right. */
    method VisitAll() returns (visited: seq<Chunk>, last: IteratorState)
      requires Valid() && (numberOfChunksX > 0 || numberOfChunksY == 0)
      ensures visited == Flatten(chunks)
      ensures last == End()
    {
      var it := new ChunkIterator(chunks, 0, 0);
      visited := [];
      while it.State() != End()
        invariant it.chunks == chunks && it.outerIndex <= |chunks|
        invariant it.outerIndex == |chunks| ==> it.innerIndex == 0
        invariant it.outerIndex < |chunks| ==> it.innerIndex < |chunks[it.outerIndex]|
        invariant visited == Flatten(chunks[..it.outerIndex]) + (if it.outerIndex < |chunks| then chunks[it.outerIndex][..it.innerIndex] else [])
        decreases |chunks| - it.outerIndex, numberOfChunksX - it.innerIndex
      {
        var c := it.Deref();
        var o, i := it.outerIndex, it.innerIndex;
        visited := visited + [c];
        it.Next();
        if it.outerIndex != o {
          assert chunks[o][..i + 1] == chunks[o];
          assert chunks[..o + 1] == chunks[..o] + [chunks[o]];
          FlattenAppend(chunks[..o], chunks[o]);
        }
      }
      assert chunks[..|chunks|] == chunks;
      last := it.State();
    }
  }

  datatype IteratorState = IteratorState(outerIndex: nat, innerIndex: nat)

  /** `ChunkManager::ChunkIterator`: a row index and a column index into the
      matrix of chunks. */
  class ChunkIterator {
    const chunks: seq<seq<Chunk>>
    var outerIndex: nat
    var innerIndex: nat

    constructor (chunks_: seq<seq<Chunk>>, outerIdx: nat, innerIdx: nat)
      ensures chunks == chunks_ && outerIndex == outerIdx && innerIndex == innerIdx
    {
      chunks, outerIndex, innerIndex := chunks_, outerIdx, innerIdx;
    }

    function State(): IteratorState
      reads this
    {
      IteratorState(outerIndex, innerIndex)
    }

    function Deref(): Chunk
      reads this
      requires outerIndex < |chunks| && innerIndex < |chunks[outerIndex]|
    {
      chunks[outerIndex][innerIndex]
    }

    /** `operator++`: next column, wrapping to the start of the next row. */
    method Next()
      requires outerIndex < |chunks|
      modifies this
      ensures old(innerIndex) + 1 >= |chunks[old(outerIndex)]| ==> outerIndex == old(outerIndex) + 1 && innerIndex == 0
      ensures old(innerIndex) + 1 < |chunks[old(outerIndex)]| ==> outerIndex == old(outerIndex) && innerIndex == old(innerIndex) + 1
    {
      innerIndex := innerIndex + 1;
      if innerIndex >= |chunks[outerIndex]| {
        innerIndex := 0;
        outerIndex := outerIndex + 1;
      }
    }
  }

  /** The constructor's outer loop: one row per `y`. */
  method BuildRows(nX: nat, nY: nat, size: real) returns (rows: seq<seq<Chunk>>)
    ensures |rows| == nY
    ensures forall y :: 0 <= y < nY ==> |rows[y]| == nX
    ensures forall y, x :: 0 <= y < |rows| && 0 <= x < |rows[y]| ==> ChunkAt(rows[y][x], x, y, size)
    ensures forall y, x :: 0 <= y < |rows| && 0 <= x < |rows[y]| ==> fresh(rows[y][x]) && rows[y][x].objects == {}
  {
    rows := [];
    var y := 0;
    while y < nY
      invariant 0 <= y <= nY && |rows| == y
      invariant forall j :: 0 <= j < y ==> |rows[j]| == nX
      invariant forall j, i :: 0 <= j < y && 0 <= i < |rows[j]| ==> ChunkAt(rows[j][i], i, j, size)
      invariant forall j, i :: 0 <= j < y && 0 <= i < |rows[j]| ==> fresh(rows[j][i]) && rows[j][i].objects == {}
    {
      var row := BuildRow(nX, y, size);
      rows := rows + [row];
      y := y + 1;
    }
  }

  /** The constructor's inner loop: the chunks of row `y`, left to right. */
  method BuildRow(nX: nat, y: nat, size: real) returns (row: seq<Chunk>)
    ensures |row| == nX
    ensures forall i :: 0 <= i < nX ==> ChunkAt(row[i], i, y, size)
    ensures forall i :: 0 <= i < nX ==> fresh(row[i]) && row[i].objects == {}
  {
    row := [];
    var x := 0;
    while x < nX
      invariant 0 <= x <= nX && |row| == x
      invariant forall i :: 0 <= i < x ==> ChunkAt(row[i], i, y, size)
      invariant forall i :: 0 <= i < x ==> fresh(row[i]) && row[i].objects == {}
    {
      var c := new Chunk(CellStart(x, size), CellStart(y, size), size, x, y);
      row := row + [c];
      x := x + 1;
    }
  }

  lemma MulLe(a: real, b: real, s: real)
    requires a <= b && s > 0.0
    ensures a * s <= b * s
  {
    assert (b - a) * s >= 0.0;
  }

  lemma MulLt(a: real, b: real, s: real)
    requires a < b && s > 0.0
    ensures a * s < b * s
  {
    assert (b - a) * s > 0.0;
  }

  /** Cells further along start further along. */
  lemma CellStartMono(j: int, k: int, size: real)
    requires j <= k && size > 0.0
    ensures CellStart(j, size) <= CellStart(k, size)
  {
    MulLe(j as real, k as real, size);
  }

  lemma CellStartNext(k: int, size: real)
    ensures CellStart(k + 1, size) == CellStart(k, size) + size
  {
  }

  /** `k = trunc(c / size)` names the cell of a non-negative `c`. */
  lemma FloorDiv(c: real, size: real)
    requires c >= 0.0 && size > 0.0
    ensures Trunc(c / size) >= 0
    ensures CellStart(Trunc(c / size), size) <= c < CellStart(Trunc(c / size) + 1, size)
  {
    var q := c / size;
    var k := q.Floor;
    assert Trunc(q) == k;
    assert q * size == c;
    MulLe(k as real, q, size);
    FloorDivUpper(c, q, k, size);
  }

  lemma FloorDivUpper(c: real, q: real, k: int, size: real)
    requires size > 0.0 && q * size == c && q < (k + 1) as real
    ensures c < CellStart(k + 1, size)
  {
    MulLt(q, (k + 1) as real, size);
  }

  /** The intended index lies in [0, n) exactly when `c <= n·size`, and then
      the cell it names contains `c` when `c >= 0`. */
  lemma AxisIndexCorrect(c: real, size: real, n: nat)
    requires size > 0.0 && n > 0
    ensures AxisIndex(c, size, n) >= 0
    ensures AxisIndex(c, size, n) < n <==> c <= CellStart(n, size)
    ensures 0.0 <= c <= CellStart(n, size) ==>
      var k := AxisIndex(c, size, n);
      CellStart(k, size) <= c <= CellStart(k, size) + size
  {
    var w := CellStart(n, size);
    if c == w {
      CellStartNext(n - 1, size);
      CellStartMono(0, n - 1, size);
    } else {
      var m := RangeValues.Max(0.0, c);
      FloorDiv(m, size);
      var k := Trunc(m / size);
      CellStartNext(k, size);
      if c <= w {
        if k >= n {
          CellStartMono(n, k, size);
        }
      } else if k < n {
        CellStartMono(k + 1, n, size);
      }
    }
  }

  /** The as-written index: non-negative, and below `n` exactly when
      `c < n·size + 1`, so a strip one unit wide past the far edge of the map
      is still given a cell. */
  lemma AxisIndexAsWrittenRange(c: real, size: real, n: nat)
    requires size > 0.0 && n > 0
    ensures AxisIndexAsWritten(c, size) >= 0
    ensures AxisIndexAsWritten(c, size) < n <==> c < CellStart(n, size) + 1.0
  {
    var m := RangeValues.Max(0.0, c - 1.0);
    FloorDiv(m, size);
    var k := Trunc(m / size);
    var w := CellStart(n, size);
    if c < w + 1.0 {
      if k >= n {
        CellStartMono(n, k, size);
      }
    } else if k < n {
      CellStartMono(k + 1, n, size);
    }
  }

  /** Just past a cell boundary `k·size` (`k >= 1`, `size >= 1`), the as-written
      index is the previous cell, `k - 1`. */
  lemma AxisIndexAsWrittenLags(c: real, size: real, k: int)
    requires size >= 1.0 && k >= 1
    requires CellStart(k, size) < c < CellStart(k, size) + 1.0
    ensures AxisIndexAsWritten(c, size) == k - 1
  {
    var m := c - 1.0;
    CellStartNext(k - 1, size);
    CellStartMono(0, k - 1, size);
    assert CellStart(0, size) == 0.0;
    FloorDiv(m, size);
    var j := Trunc(m / size);
    CellStartNext(j, size);
    if j < k - 1 {
      CellStartMono(j + 1, k - 1, size);
    } else if j > k - 1 {
      CellStartMono(k, j, size);
    }
  }

  /** The lookup the model uses finds a chunk exactly for the points with
      `p.x <= mapWidth` and `p.y <= mapHeight` (negative coordinates fall in the
      first row or column), and a point on the map lies inside its chunk. */
  lemma WhatChunkHereFinds(m: ChunkManager, p: Vec2)
    requires m.Valid() && m.numberOfChunksX > 0 && m.numberOfChunksY > 0
    ensures m.WhatChunkHere(p) != null <==> p.x <= m.mapWidth && p.y <= m.mapHeight
    ensures 0.0 <= p.x <= m.mapWidth && 0.0 <= p.y <= m.mapHeight ==>
      m.WhatChunkHere(p) != null && m.WhatChunkHere(p).IsPosInsideChunk(p)
  {
    AxisIndexCorrect(p.x, m.chunkSize, m.numberOfChunksX);
    AxisIndexCorrect(p.y, m.chunkSize, m.numberOfChunksY);
  }

  /** `whatChunkHere` as written finds a chunk exactly for the points with
      `p.x < mapWidth + 1` and `p.y < mapHeight + 1`: every point of the map,
      and a strip beyond it. */
  lemma WhatChunkHereAsWrittenFinds(m: ChunkManager, p: Vec2)
    requires m.Valid() && m.numberOfChunksX > 0 && m.numberOfChunksY > 0
    ensures m.WhatChunkHereAsWritten(p) != null <==> p.x < m.mapWidth + 1.0 && p.y < m.mapHeight + 1.0
  {
    AxisIndexAsWrittenRange(p.x, m.chunkSize, m.numberOfChunksX);
    AxisIndexAsWrittenRange(p.y, m.chunkSize, m.numberOfChunksY);
  }

  /** A point less than one unit past the left edge `k·size` of column `k`
      is given column `k - 1` by `whatChunkHere` as written, and that chunk does
      not contain it; the intended lookup gives column `k`, which does. */
  lemma WhatChunkHereAsWrittenMisplaces(m: ChunkManager, p: Vec2, k: int)
    requires m.Valid() && m.numberOfChunksX > 0 && m.numberOfChunksY > 0 && m.chunkSize >= 1.0
    requires k >= 1 && CellStart(k, m.chunkSize) < p.x < CellStart(k, m.chunkSize) + 1.0
    requires p.x <= m.mapWidth && 0.0 <= p.y <= m.mapHeight
    ensures m.WhatChunkHereAsWritten(p) != null && m.WhatChunkHereAsWritten(p).xIndex == k - 1
    ensures !m.WhatChunkHereAsWritten(p).IsPosInsideChunk(p)
    ensures m.WhatChunkHere(p) != null && m.WhatChunkHere(p).xIndex == k
    ensures m.WhatChunkHere(p).IsPosInsideChunk(p)
  {
    WhatChunkHereAsWrittenFinds(m, p);
    AxisIndexAsWrittenLags(p.x, m.chunkSize, k);
    CellStartNext(k - 1, m.chunkSize);
    WhatChunkHereFinds(m, p);
    AxisIndexCorrect(p.x, m.chunkSize, m.numberOfChunksX);
    var j := AxisIndex(p.x, m.chunkSize, m.numberOfChunksX);
    CellStartNext(j, m.chunkSize);
    if j < k {
      CellStartMono(j + 1, k, m.chunkSize);
    } else if j > k {
      CellStartMono(k + 1, j, m.chunkSize);
      CellStartNext(k, m.chunkSize);
    }
  }

  /** With 10-unit chunks, the point (10.5, 5) is given chunk (0, 0), which
      ends at x = 10, instead of chunk (1, 0). */
  lemma WhatChunkHereAsWrittenExample(m: ChunkManager)
    requires m.Valid() && m.chunkSize == 10.0 && m.numberOfChunksX >= 2 && m.numberOfChunksY >= 1
    ensures m.WhatChunkHereAsWritten(Vec2(10.5, 5.0)) != null
    ensures m.WhatChunkHereAsWritten(Vec2(10.5, 5.0)).Ref() == ChunkRef(0, 0)
    ensures !m.WhatChunkHereAsWritten(Vec2(10.5, 5.0)).IsPosInsideChunk(Vec2(10.5, 5.0))
    ensures m.WhatChunkHere(Vec2(10.5, 5.0)) != null
    ensures m.WhatChunkHere(Vec2(10.5, 5.0)).Ref() == ChunkRef(1, 0)
  {
    var p := Vec2(10.5, 5.0);
    assert CellStart(1, 10.0) == 10.0;
    CellStartMono(2, m.numberOfChunksX, 10.0);
    CellStartMono(1, m.numberOfChunksY, 10.0);
    WhatChunkHereAsWrittenMisplaces(m, p, 1);
    AxisIndexAsWrittenRange(5.0, 10.0, m.numberOfChunksY);
    AxisIndexCorrect(5.0, 10.0, m.numberOfChunksY);
  }

  /** The chunk change at the end of `actionMove`, as written: when the new
      position `p` is outside the bot's chunk `here`, the bot is moved to the
      chunk that `whatChunkHere` as written gives for `p`. When that lookup
      lags back to `here`, the add and the erase of `moveToChunk` cancel, and
      the bot is left in no chunk. */
  method RechunkAsWritten(m: ChunkManager, here: Chunk, key: nat, p: Vec2) returns (backPointer: ChunkRef)
    requires m.Valid() && here in m.Repr && m.numberOfChunksX > 0 && m.numberOfChunksY > 0
    requires p.x <= m.mapWidth && p.y <= m.mapHeight
    modifies m.Repr
    ensures here.IsPosInsideChunk(p) ==> backPointer == here.Ref()
    ensures here.IsPosInsideChunk(p) ==> forall c :: c in m.Repr ==> c.objects == old(c.objects)
    ensures !here.IsPosInsideChunk(p) ==>
      var dest := m.WhatChunkHereAsWritten(p);
      && dest != null && backPointer == dest.Ref()
      && (dest != here ==> dest.objects == old(dest.objects) + {key} && here.objects == old(here.objects) - {key})
      && (dest == here ==> here.objects == old(here.objects) - {key})
      && (forall c :: c in m.Repr && c != here && c != dest ==> c.objects == old(c.objects))
  {
    if here.IsPosInsideChunk(p) {
      return here.Ref();
    }
    WhatChunkHereAsWrittenFinds(m, p);
    var dest := m.WhatChunkHereAsWritten(p);
    backPointer := here.MoveToChunk(key, dest);
  }

  /** The moveToChunk finding end to end: with 10-unit chunks, a bot held
      only by chunk (0, 0) that steps to (10.5, 5) ends up in no chunk at
      all, while its back pointer still names chunk (0, 0). */
  method MoveAsWrittenOrphans(m: ChunkManager, key: nat) returns (backPointer: ChunkRef)
    requires m.Valid() && m.chunkSize == 10.0 && m.numberOfChunksX >= 2 && m.numberOfChunksY >= 1
    requires key in m.GetChunk(0, 0).objects
    requires forall c :: c in m.Repr && c != m.GetChunk(0, 0) ==> key !in c.objects
    modifies m.Repr
    ensures backPointer == ChunkRef(0, 0)
    ensures forall c :: c in m.Repr ==> key !in c.objects
  {
    var p := Vec2(10.5, 5.0);
    WhatChunkHereAsWrittenExample(m);
    CellStartMono(2, m.numberOfChunksX, 10.0);
    CellStartMono(1, m.numberOfChunksY, 10.0);
    var here := m.GetChunk(0, 0);
    assert here == m.WhatChunkHereAsWritten(p);
    backPointer := RechunkAsWritten(m, here, key, p);
  }

  /** The containment test is inclusive, so a point on the edge shared by
      columns `k - 1` and `k` is inside both chunks. */
  lemma SharedEdgeInsideTwoChunks(m: ChunkManager, k: int, y: int)
    requires m.Valid() && 1 <= k < m.numberOfChunksX && 0 <= y < m.numberOfChunksY
    ensures var p := Vec2(CellStart(k, m.chunkSize), CellStart(y, m.chunkSize));
      m.GetChunk(k - 1, y).IsPosInsideChunk(p) && m.GetChunk(k, y).IsPosInsideChunk(p)
  {
    CellStartNext(k - 1, m.chunkSize);
    CellStartNext(y, m.chunkSize);
  }

  /** Every chunk of the grid sits at its own indexes. */
  lemma ReprCell(m: ChunkManager, c: Chunk)
    requires m.Valid() && c in m.Repr
    ensures m.InGrid(c.xIndex, c.yIndex) && m.chunks[c.yIndex][c.xIndex] == c
  {
    FlattenSource(m.chunks, c);
  }

  lemma FlattenAppend(rows: seq<seq<Chunk>>, row: seq<Chunk>)
    ensures Flatten(rows + [row]) == Flatten(rows) + row
  {
    assert (rows + [row])[..|rows|] == rows;
  }

  lemma {:induction false} FlattenMember(rows: seq<seq<Chunk>>, y: int, x: int)
    requires 0 <= y < |rows| && 0 <= x < |rows[y]|
    ensures rows[y][x] in Flatten(rows)
  {
    var init := rows[..|rows| - 1];
    if y < |rows| - 1 {
      FlattenMember(init, y, x);
    }
  }

  /** Every element of the flattened matrix comes from some (row, column). */
  lemma {:induction false} FlattenSource(rows: seq<seq<Chunk>>, c: Chunk)
    requires c in Flatten(rows)
    ensures exists y, x :: 0 <= y < |rows| && 0 <= x < |rows[y]| && rows[y][x] == c
  {
    var init := rows[..|rows| - 1];
    if c in Flatten(init) {
      FlattenSource(init, c);
      var y, x :| 0 <= y < |init| && 0 <= x < |init[y]| && init[y][x] == c;
      assert rows[y][x] == c;
    } else {
      var x :| 0 <= x < |rows[|rows| - 1]| && rows[|rows| - 1][x] == c;
    }
  }
}
