/** The conversion as a whole: the loaded mesh, the triangle selection and the
    bulk-data lines, with the two ways the script gives up before writing. */
module Converter {
  import opened Options
  import opened Mesh
  import opened BulkData

  /** Why no output is produced: the reader failed, or the mesh has no block
      tagged "triangle". */
  datatype ConvertError = ReadError | NoTriangleData

  datatype Result<T> = Ok(value: T) | Err(error: ConvertError)

  /** What the external mesh reader delivered. Its parsing is not modelled; only
      its success or failure is. */
  datatype Loaded<C> = Loaded(mesh: Mesh<C>) | LoadFailed

  /** The output lines for a loaded mesh, or the reason there are none. */
  function Convert<C>(loaded: Loaded<C>, fmt: C -> string): (r: Result<seq<string>>)
    ensures loaded.LoadFailed? ==> r == Err(ReadError)
    ensures loaded.Loaded? ==> (r.Err? <==> !HasTriangle(loaded.mesh.blocks))
    ensures loaded.Loaded? && r.Err? ==> r.error == NoTriangleData
    ensures r.Ok? ==> loaded.Loaded? && exists i ::
      && FirstTriangleAt(loaded.mesh.blocks, i)
      && r.value == BulkLines(loaded.mesh.points, loaded.mesh.blocks[i].cells, fmt)
  {
    match loaded
    case LoadFailed => Err(ReadError)
    case Loaded(mesh) =>
      match SelectTriangles(mesh.blocks)
      case None => Err(NoTriangleData)
      case Some(cells) => Ok(BulkLines(mesh.points, cells, fmt))
  }

  /** A successful conversion writes one line per point, one per triangle of the
      first triangle block and five framing lines. */
  lemma ConvertLineCount<C>(points: seq<Point<C>>, blocks: seq<Block>, fmt: C -> string, i: int)
    requires FirstTriangleAt(blocks, i)
    ensures Convert(Loaded(Mesh(points, blocks)), fmt).Ok?
    ensures |Convert(Loaded(Mesh(points, blocks)), fmt).value| == |points| + |blocks[i].cells| + 5
  {
    SelectsFirst(blocks, i);
  }

  /** A first triangle block without rows still counts as found: the output is
      the framing lines and the GRID cards, and no CTRIA3 card. */
  lemma EmptyTriangleBlock<C>(points: seq<Point<C>>, blocks: seq<Block>, fmt: C -> string, i: int)
    requires FirstTriangleAt(blocks, i) && blocks[i].cells == []
    ensures Convert(Loaded(Mesh(points, blocks)), fmt) == Ok(BulkLines(points, [], fmt))
    ensures |Convert(Loaded(Mesh(points, blocks)), fmt).value| == |points| + 5
  {
    SelectsFirst(blocks, i);
  }

  /** The script as it runs: scan the blocks with an early exit, then write the
      cards loop by loop. */
  method Run<C>(loaded: Loaded<C>, fmt: C -> string) returns (r: Result<seq<string>>)
    ensures r == Convert(loaded, fmt)
  {
    if loaded.LoadFailed? {
      return Err(ReadError);
    }
    var found := ScanForTriangles(loaded.mesh.blocks);
    if found.None? {
      return Err(NoTriangleData);
    }
    var lines := WriteBulk(loaded.mesh.points, found.value, fmt);
    r := Ok(lines);
  }
}
