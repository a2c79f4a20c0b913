/** The mesh as the external reader hands it over: a point sequence and a list of
    typed cell blocks, and the scan that picks the triangle cells out of it. */
module Mesh {
  import opened Options

  /** One triangle: three 0-based positions into the point sequence. No bound
      against the number of points is implied. */
  datatype Triple = Triple(n0: nat, n1: nat, n2: nat)

  /** A point with three coordinates of an uninterpreted numeric type `C`. */
  datatype Point<C> = Point(x: C, y: C, z: C)

  /** A cell block: a topology tag and its connectivity rows. */
  datatype Block = Block(tag: string, cells: seq<Triple>)

  datatype Mesh<C> = Mesh(points: seq<Point<C>>, blocks: seq<Block>)

  const TriangleTag: string := "triangle"

  predicate IsTriangle(b: Block) {
    b.tag == TriangleTag
  }

  predicate HasTriangle(blocks: seq<Block>) {
    exists i :: 0 <= i < |blocks| && IsTriangle(blocks[i])
  }

  /** Block `i` is the first block tagged "triangle". */
  predicate FirstTriangleAt(blocks: seq<Block>, i: int) {
    && 0 <= i < |blocks|
    && IsTriangle(blocks[i])
    && forall j :: 0 <= j < i ==> !IsTriangle(blocks[j])
  }

  /** The cells of the first triangle block, or None when there is none
      (in particular when there are no blocks at all). */
  function SelectTriangles(blocks: seq<Block>): (r: Option<seq<Triple>>)
    ensures r.Some? <==> HasTriangle(blocks)
    ensures r.Some? ==> exists i :: FirstTriangleAt(blocks, i) && r.value == blocks[i].cells
  {
    if blocks == [] then None
    else if IsTriangle(blocks[0]) then Some(blocks[0].cells)
    else
      var r := SelectTriangles(blocks[1..]);
      assert HasTriangle(blocks[1..]) <==> HasTriangle(blocks) by {
        if HasTriangle(blocks) {
          var i :| 0 <= i < |blocks| && IsTriangle(blocks[i]);
          assert blocks[1..][i - 1] == blocks[i];
        }
      }
      if r.Some? then
        var i :| FirstTriangleAt(blocks[1..], i) && r.value == blocks[1..][i].cells;
        assert FirstTriangleAt(blocks, i + 1) by {
          forall j | 0 <= j < i + 1
            ensures !IsTriangle(blocks[j])
          {
            if j > 0 {
              assert blocks[j] == blocks[1..][j - 1];
            }
          }
        }
        r
      else
        r
  }

  /** The first triangle block is unique. */
  lemma FirstTriangleUnique(blocks: seq<Block>, i: int, j: int)
    requires FirstTriangleAt(blocks, i) && FirstTriangleAt(blocks, j)
    ensures i == j
  {
  }

  /** The selection is exactly the cells of the first triangle block. */
  lemma {:induction false} SelectsFirst(blocks: seq<Block>, i: int)
    requires FirstTriangleAt(blocks, i)
    ensures SelectTriangles(blocks) == Some(blocks[i].cells)
  {
    var r := SelectTriangles(blocks);
    var k :| FirstTriangleAt(blocks, k) && r.value == blocks[k].cells;
    FirstTriangleUnique(blocks, i, k);
  }

  /** Blocks after a triangle block never change the selection: later triangle
      blocks are dropped. */
  lemma {:induction false} LaterBlocksIgnored(blocks: seq<Block>, later: seq<Block>)
    requires HasTriangle(blocks)
    ensures SelectTriangles(blocks + later) == SelectTriangles(blocks)
  {
    var r := SelectTriangles(blocks);
    var i :| FirstTriangleAt(blocks, i) && r.value == blocks[i].cells;
    var all := blocks + later;
    assert FirstTriangleAt(all, i) by {
      assert all[i] == blocks[i];
      forall j | 0 <= j < i
        ensures !IsTriangle(all[j])
      {
        assert all[j] == blocks[j];
      }
    }
    SelectsFirst(all, i);
  }

  /** Non-triangle blocks in front of the list are skipped. */
  lemma {:induction false} LeadingBlocksSkipped(front: seq<Block>, blocks: seq<Block>)
    requires forall j :: 0 <= j < |front| ==> !IsTriangle(front[j])
    ensures SelectTriangles(front + blocks) == SelectTriangles(blocks)
  {
    var all := front + blocks;
    if HasTriangle(blocks) {
      var r := SelectTriangles(blocks);
      var i :| FirstTriangleAt(blocks, i) && r.value == blocks[i].cells;
      assert FirstTriangleAt(all, |front| + i) by {
        assert all[|front| + i] == blocks[i];
        forall j | 0 <= j < |front| + i
          ensures !IsTriangle(all[j])
        {
          if j >= |front| {
            assert all[j] == blocks[j - |front|];
          } else {
            assert all[j] == front[j];
          }
        }
      }
      SelectsFirst(all, |front| + i);
    } else {
      assert !HasTriangle(all) by {
        forall j | 0 <= j < |all|
          ensures !IsTriangle(all[j])
        {
          if j >= |front| {
            assert all[j] == blocks[j - |front|];
          } else {
            assert all[j] == front[j];
          }
        }
      }
    }
  }

  /** The scan as the source writes it: walk the blocks in order, keep the data of
      the first one tagged "triangle" and stop there. */
  method ScanForTriangles(blocks: seq<Block>) returns (found: Option<seq<Triple>>)
    ensures found.None? <==> !HasTriangle(blocks)
    ensures found.Some? ==> exists i :: FirstTriangleAt(blocks, i) && found.value == blocks[i].cells
    ensures found == SelectTriangles(blocks)
  {
    found := None;
    var k := 0;
    while k < |blocks|
      invariant 0 <= k <= |blocks|
      invariant forall j :: 0 <= j < k ==> !IsTriangle(blocks[j])
    {
      if IsTriangle(blocks[k]) {
        found := Some(blocks[k].cells);
        assert FirstTriangleAt(blocks, k);
        SelectsFirst(blocks, k);
        return;
      }
      k := k + 1;
    }
  }
}
