/** The bulk-data writer: the card lines written for the points and the selected
    triangles in the small-field format, and readers for the GRID and CTRIA3
    cards that undo the 0-based to 1-based renumbering. */
module BulkData {
  import opened Options
  import opened Decimal
  import opened Columns
  import opened Mesh

  /** A bulk-data line starting with a dollar sign is a comment. */
  const CommentMarker: string := "$"
  const CommentLine: string := CommentMarker + " Generated for RTMsim with classic small-field GRID format"
  const BeginBulk: string := "BEGIN BULK"
  const EndData: string := "ENDDATA"

  const PropertyId: nat := 1
  const MaterialId: nat := 1

  /** Fixed renderings of the placeholder constants: thickness `1.0` as `.1f`,
      Young's modulus `2.1e+5` as `.1e`, Poisson's ratio `0.3` as `.1f`. */
  const ThicknessText: string := "1.0"
  const YoungsModulusText: string := "2.1e+05"
  const PoissonText: string := "0.3"

  const GridTag: string := "GRID"
  const Ctria3Tag: string := "CTRIA3"

  /** Ids below this bound fit in one 8-character column. */
  const SmallFieldLimit: nat := 100000000

  /** An integer column: the decimal id, right-justified (`{n:>8}`). */
  function IntField(n: nat): (f: Field)
    ensures f.Right? && ParseNat(f.text) == Some(n)
  {
    ParseNatRoundTrip(n);
    Right(NatToString(n))
  }

  /** The synthetic property and material cards, as written out in full. */
  const PshellCard: string := "PSHELL         1       1     1.0"
  const Mat1Card: string := "MAT1           1 2.1e+05             0.3"

  function PshellFields(): seq<Field> {
    [Left("PSHELL"), IntField(PropertyId), IntField(MaterialId), Right(ThicknessText)]
  }

  function Mat1Fields(): seq<Field> {
    [Left("MAT1"), IntField(MaterialId), Right(YoungsModulusText), Right(""), Right(PoissonText)]
  }

  /** The fields of the GRID card of the point at 0-based position `i`: tag, node
      id, an empty coordinate-system column and the three rendered coordinates. */
  function GridFields(i: nat, x: string, y: string, z: string): seq<Field> {
    [Left(GridTag), IntField(i + 1), Right(""), Right(x), Right(y), Right(z)]
  }

  function GridLine(i: nat, x: string, y: string, z: string): string {
    Line(GridFields(i, x, y, z))
  }

  /** The GRID card of a point, its coordinates rendered by `fmt` (four decimals,
      `.4f`) before padding. */
  function GridCard<C>(i: nat, p: Point<C>, fmt: C -> string): (r: string)
    ensures |r| >= 6 * FieldWidth
  {
    var fs := GridFields(i, fmt(p.x), fmt(p.y), fmt(p.z));
    RenderedWidths(fs);
    ConcatAtLeast(RenderAll(fs));
    GridLine(i, fmt(p.x), fmt(p.y), fmt(p.z))
  }

  /** The integer columns of a card, one per id, in order. */
  function IdFields(ids: seq<nat>): (r: seq<Field>)
    ensures |r| == |ids|
    ensures forall k :: 0 <= k < |ids| ==> r[k] == IntField(ids[k])
  {
    seq(|ids|, k requires 0 <= k < |ids| => IntField(ids[k]))
  }

  /** The ids a CTRIA3 card carries for the triangle at 0-based position `i`:
      element id, property id and the three 1-based node references. */
  function Ctria3Ids(i: nat, t: Triple): (ids: seq<nat>)
    ensures |ids| == 5 && ids[1] == PropertyId
    ensures forall k :: 0 <= k < |ids| ==> ids[k] >= 1
  {
    [i + 1, PropertyId, t.n0 + 1, t.n1 + 1, t.n2 + 1]
  }

  /** The fields of a CTRIA3 card: the tag, then its ids. */
  function Ctria3Fields(i: nat, t: Triple): seq<Field> {
    [Left(Ctria3Tag)] + IdFields(Ctria3Ids(i, t))
  }

  /** The CTRIA3 card of the triangle at 0-based position `i`: six padded
      columns, never cut short. */
  function Ctria3Card(i: nat, t: Triple): (r: string)
    ensures |r| >= 6 * FieldWidth
  {
    var fs := Ctria3Fields(i, t);
    RenderedWidths(fs);
    ConcatAtLeast(RenderAll(fs));
    Line(fs)
  }

  /** Positions of the parts of the output, independent of what each line says. */
  function Layout<T>(comment: T, begin: T, pshell: T, mat1: T, grids: seq<T>, elements: seq<T>, end: T): (lines: seq<T>)
    ensures |lines| == |grids| + |elements| + 5
    ensures lines[0] == comment && lines[1] == begin && lines[2] == pshell && lines[3] == mat1
    ensures lines[|lines| - 1] == end
    ensures forall i :: 0 <= i < |grids| ==> lines[4 + i] == grids[i]
    ensures forall i :: 0 <= i < |elements| ==> lines[4 + |grids| + i] == elements[i]
  {
    [comment, begin, pshell, mat1] + grids + elements + [end]
  }

  /** The GRID cards of the points, in input order. */
  function GridCards<C>(points: seq<Point<C>>, fmt: C -> string): (r: seq<string>)
    ensures |r| == |points|
    ensures forall i :: 0 <= i < |points| ==> r[i] == GridCard(i, points[i], fmt)
  {
    seq(|points|, i requires 0 <= i < |points| => GridCard(i, points[i], fmt))
  }

  /** The CTRIA3 cards of the triangles, in input order. */
  function Ctria3Cards(cells: seq<Triple>): (r: seq<string>)
    ensures |r| == |cells|
    ensures forall i :: 0 <= i < |cells| ==> r[i] == Ctria3Card(i, cells[i])
  {
    seq(|cells|, i requires 0 <= i < |cells| => Ctria3Card(i, cells[i]))
  }

  /** The whole output, one string per line: comment, BEGIN BULK, PSHELL, MAT1,
      a GRID card per point, a CTRIA3 card per triangle, ENDDATA. No relation
      between the triangles' node positions and the number of points is required. */
  function BulkLines<C>(points: seq<Point<C>>, cells: seq<Triple>, fmt: C -> string): (lines: seq<string>)
    ensures |lines| == |points| + |cells| + 5
    ensures lines[0] == CommentLine && lines[1] == BeginBulk
    ensures lines[2] == PshellCard && lines[3] == Mat1Card
    ensures lines[|lines| - 1] == EndData
    ensures forall k :: 4 <= k < 4 + |points| ==> lines[k] == GridCard(k - 4, points[k - 4], fmt)
    ensures forall k :: 4 + |points| <= k < |lines| - 1 ==>
      lines[k] == Ctria3Card(k - 4 - |points|, cells[k - 4 - |points|])
  {
    Layout(CommentLine, BeginBulk, PshellCard, Mat1Card, GridCards(points, fmt), Ctria3Cards(cells), EndData)
  }

  /** One `for i, item in enumerate(items)` loop of the writer: the card of each
      item, given its 0-based position, in input order. */
  method Enumerate<T, U>(items: seq<T>, card: (nat, T) -> U) returns (out: seq<U>)
    ensures |out| == |items|
    ensures forall j :: 0 <= j < |items| ==> out[j] == card(j, items[j])
  {
    out := [];
    var i := 0;
    while i < |items|
      invariant 0 <= i <= |items|
      invariant |out| == i
      invariant forall j :: 0 <= j < i ==> out[j] == card(j, items[j])
    {
      out := out + [card(i, items[i])];
      i := i + 1;
    }
  }

  /** The writer as the source runs it: the header cards, then one loop over the
      points, one loop over the triangles, then the footer. */
  method WriteBulk<C>(points: seq<Point<C>>, cells: seq<Triple>, fmt: C -> string) returns (lines: seq<string>)
    ensures lines == BulkLines(points, cells, fmt)
  {
    var grids := Enumerate(points, (j, p) => GridCard(j, p, fmt));
    var elements := Enumerate(cells, (j, t) => Ctria3Card(j, t));
    assert grids == GridCards(points, fmt);
    assert elements == Ctria3Cards(cells);
    lines := Layout(CommentLine, BeginBulk, PshellCard, Mat1Card, grids, elements, EndData);
  }

  /** Reads an integer column: leading padding dropped, then one or more decimal digits. */
  function ParseIntField(f: string): (r: Option<nat>)
    ensures r.Some? <==> Canonical(TrimLeft(f))
  {
    ParseNat(TrimLeft(f))
  }

  /** An integer column reads back as the id written into it. */
  lemma IntFieldRoundTrip(n: nat)
    ensures ParseIntField(Render(IntField(n))) == Some(n)
  {
    RightJustifyRoundTrip(NatToString(n));
    ParseNatRoundTrip(n);
  }

  /** An id fits its 8-character column exactly when it is below 10^8; a larger id
      is written in full and widens the column. */
  lemma IntFieldWidth(n: nat)
    ensures |IntField(n).text| <= FieldWidth <==> n < SmallFieldLimit
  {
    WidthBound(n, FieldWidth);
    assert Pow10(FieldWidth) == SmallFieldLimit;
  }

  /** The id 1 in its column. */
  lemma OneColumn()
    ensures Render(IntField(1)) == "       1"
  {
    assert NatToString(1) == [DigitChar(1)] == "1";
    assert Spaces(7) == "       ";
  }

  /** The padded tags and placeholder constants of the two synthetic cards. */
  lemma PaddedConstants()
    ensures LeftJustify("PSHELL") == "PSHELL  " && RightJustify(ThicknessText) == "     1.0"
    ensures LeftJustify("MAT1") == "MAT1    " && RightJustify(YoungsModulusText) == " 2.1e+05"
    ensures RightJustify("") == "        " && RightJustify(PoissonText) == "     0.3"
  {
    assert Spaces(1) == " ";
    assert Spaces(2) == "  ";
    assert Spaces(4) == "    ";
    assert Spaces(5) == "     ";
    assert Spaces(8) == "        ";
  }

  lemma PshellRendered()
    ensures RenderAll(PshellFields()) == ["PSHELL  ", "       1", "       1", "     1.0"]
  {
    OneColumn();
    PaddedConstants();
    RenderAll4(Left("PSHELL"), IntField(PropertyId), IntField(MaterialId), Right(ThicknessText));
  }

  lemma Mat1Rendered()
    ensures RenderAll(Mat1Fields()) == ["MAT1    ", "       1", " 2.1e+05", "        ", "     0.3"]
  {
    OneColumn();
    PaddedConstants();
    RenderAll5(Left("MAT1"), IntField(MaterialId), Right(YoungsModulusText), Right(""), Right(PoissonText));
  }

  /** The PSHELL literal split at its column boundaries; kept as a separate step
      so that the proof of PshellCardColumns stays small. */
  lemma PshellText()
    ensures PshellCard == "PSHELL  " + "       1" + "       1" + "     1.0"
  {
  }

  /** The PSHELL card is its fields rendered column by column: tag, property id,
      material id and the thickness placeholder. */
  lemma PshellCardColumns()
    ensures PshellCard == Line(PshellFields())
  {
    PshellRendered();
    Concat4("PSHELL  ", "       1", "       1", "     1.0");
    PshellText();
  }

  /** The MAT1 literal split at its column boundaries; kept as a separate step
      so that the proof of Mat1CardColumns stays small. */
  lemma Mat1Text()
    ensures Mat1Card == "MAT1    " + "       1" + " 2.1e+05" + "        " + "     0.3"
  {
  }

  /** The MAT1 card is its fields rendered column by column: tag, material id,
      Young's modulus, an empty column and Poisson's ratio. */
  lemma Mat1CardColumns()
    ensures Mat1Card == Line(Mat1Fields())
  {
    Mat1Rendered();
    Concat5("MAT1    ", "       1", " 2.1e+05", "        ", "     0.3");
    Mat1Text();
  }

  /** Every id of a CTRIA3 card (element id and the three node references) is below 10^8. */
  predicate FitsSmallField(i: nat, t: Triple) {
    && i + 1 < SmallFieldLimit
    && t.n0 + 1 < SmallFieldLimit
    && t.n1 + 1 < SmallFieldLimit
    && t.n2 + 1 < SmallFieldLimit
  }

  predicate AllFit(ids: seq<nat>) {
    forall k :: 0 <= k < |ids| ==> ids[k] < SmallFieldLimit
  }

  /** A run of id columns is one column per id exactly when every id is below 10^8. */
  lemma IdFieldsFit(ids: seq<nat>)
    ensures FitsColumns(IdFields(ids)) <==> AllFit(ids)
  {
    var fs := IdFields(ids);
    forall k | 0 <= k < |ids|
      ensures |fs[k].text| <= FieldWidth <==> ids[k] < SmallFieldLimit
    {
      IntFieldWidth(ids[k]);
    }
  }

  lemma Ctria3IdsFit(i: nat, t: Triple)
    ensures AllFit(Ctria3Ids(i, t)) <==> FitsSmallField(i, t)
  {
    var ids := Ctria3Ids(i, t);
    assert ids[0] == i + 1 && ids[1] == PropertyId;
    assert ids[2] == t.n0 + 1 && ids[3] == t.n1 + 1 && ids[4] == t.n2 + 1;
  }

  lemma Ctria3Fits(i: nat, t: Triple)
    ensures FitsColumns(Ctria3Fields(i, t)) <==> FitsSmallField(i, t)
  {
    var ids := Ctria3Ids(i, t);
    var fs := Ctria3Fields(i, t);
    IdFieldsFit(ids);
    Ctria3IdsFit(i, t);
    assert fs[1..] == IdFields(ids);
    if FitsColumns(fs) {
      assert FitsColumns(fs[1..]);
    }
  }

  /** Reads a run of integer columns, failing if any of them is not a number. */
  function ParseIds(cols: seq<string>): (r: Option<seq<nat>>)
    ensures r.Some? ==> |r.value| == |cols|
    decreases |cols|
  {
    if cols == [] then Some([])
    else
      var head := ParseIntField(cols[0]);
      var rest := ParseIds(cols[1..]);
      if head.Some? && rest.Some? then Some([head.value] + rest.value) else None
  }

  /** Id columns written for ids below 10^8 are one column each. */
  lemma IdColumnsWidth(ids: seq<nat>)
    requires AllFit(ids)
    ensures FixedWidth(RenderAll(IdFields(ids)))
  {
    var cols := RenderAll(IdFields(ids));
    forall k | 0 <= k < |cols|
      ensures |cols[k]| == FieldWidth
    {
      IntFieldWidth(ids[k]);
    }
  }

  /** The columns after the first are the columns of the remaining ids. */
  lemma IdColumnsTail(ids: seq<nat>)
    requires ids != []
    ensures RenderAll(IdFields(ids))[1..] == RenderAll(IdFields(ids[1..]))
  {
    assert IdFields(ids) == [IntField(ids[0])] + IdFields(ids[1..]);
    RenderAllCons(IntField(ids[0]), IdFields(ids[1..]));
  }

  /** The first id column reads back as the first id. */
  lemma IdColumnsHead(ids: seq<nat>)
    requires ids != []
    ensures ParseIntField(RenderAll(IdFields(ids))[0]) == Some(ids[0])
  {
    IntFieldRoundTrip(ids[0]);
  }

  lemma {:induction false} ParseIdsStep(cols: seq<string>, n: nat, rest: seq<nat>)
    requires cols != [] && ParseIntField(cols[0]) == Some(n) && ParseIds(cols[1..]) == Some(rest)
    ensures ParseIds(cols) == Some([n] + rest)
  {
  }

  /** Id columns read back as the ids they were written from. */
  lemma {:induction false} IdColumnsRoundTrip(ids: seq<nat>)
    ensures ParseIds(RenderAll(IdFields(ids))) == Some(ids)
  {
    if ids != [] {
      var cols := RenderAll(IdFields(ids));
      IdColumnsRoundTrip(ids[1..]);
      IdColumnsTail(ids);
      IdColumnsHead(ids);
      ParseIdsStep(cols, ids[0], ids[1..]);
      assert [ids[0]] + ids[1..] == ids;
    }
  }

  /** Reads the columns of a CTRIA3 card: six full columns, the CTRIA3 tag,
      property id 1 and 1-based ids, which are turned back into the element's
      0-based position and 0-based node positions. */
  function ReadCtria3(cols: seq<string>): (r: Option<(nat, Triple)>)
    ensures r.Some? ==> |cols| == 6 && FixedWidth(cols) && cols[0] == LeftJustify(Ctria3Tag)
  {
    if |cols| != 6 || !FixedWidth(cols) || cols[0] != LeftJustify(Ctria3Tag) then None
    else
      match ParseIds(cols[1..])
      case None => None
      case Some(ids) => Ctria3FromIds(ids)
  }

  /** Undoes the renumbering of the ids of a CTRIA3 card: element id, property id
      1 and three node references, all 1-based. */
  function Ctria3FromIds(ids: seq<nat>): (r: Option<(nat, Triple)>)
    ensures r.Some? ==> Ctria3Ids(r.value.0, r.value.1) == ids
  {
    if |ids| == 5 && ids[0] >= 1 && ids[1] == PropertyId && ids[2] >= 1 && ids[3] >= 1 && ids[4] >= 1
    then Some((ids[0] - 1, Triple(ids[2] - 1, ids[3] - 1, ids[4] - 1)))
    else None
  }

  /** The ids of a card come back as the element and triple they were written for. */
  lemma Ctria3IdsRoundTrip(i: nat, t: Triple)
    ensures Ctria3FromIds(Ctria3Ids(i, t)) == Some((i, t))
  {
    assert Triple(t.n0 + 1 - 1, t.n1 + 1 - 1, t.n2 + 1 - 1) == t;
  }

  /** Reads a CTRIA3 card line back, cutting it into 8-character columns first. */
  function ParseCtria3(line: string): (r: Option<(nat, Triple)>)
    ensures r.Some? ==> |line| == 6 * FieldWidth && line[..FieldWidth] == LeftJustify(Ctria3Tag)
  {
    var fs := SplitFields(line);
    var r := ReadCtria3(fs);
    if r.Some? then
      ConcatLength(fs);
      assert line == fs[0] + Concat(fs[1..]);
      r
    else r
  }

  /** The tag column followed by five full id columns carrying the ids of
      element `i` and triple `t` reads back as `i` and `t`. */
  lemma {:induction false} ReadCtria3Columns(idcols: seq<string>, i: nat, t: Triple)
    requires |idcols| == 5 && FixedWidth(idcols) && ParseIds(idcols) == Some(Ctria3Ids(i, t))
    ensures ReadCtria3([LeftJustify(Ctria3Tag)] + idcols) == Some((i, t))
  {
    var cols := [LeftJustify(Ctria3Tag)] + idcols;
    FixedWidthCons(LeftJustify(Ctria3Tag), idcols);
    assert cols[1..] == idcols;
    Ctria3IdsRoundTrip(i, t);
  }

  /** The same, for the line the columns are written into. */
  lemma {:induction false} ParseCtria3Columns(idcols: seq<string>, i: nat, t: Triple)
    requires |idcols| == 5 && FixedWidth(idcols) && ParseIds(idcols) == Some(Ctria3Ids(i, t))
    ensures FixedWidth([LeftJustify(Ctria3Tag)] + idcols)
    ensures ParseCtria3(Concat([LeftJustify(Ctria3Tag)] + idcols)) == Some((i, t))
  {
    ReadCtria3Columns(idcols, i, t);
    FixedWidthCons(LeftJustify(Ctria3Tag), idcols);
    SplitConcat([LeftJustify(Ctria3Tag)] + idcols);
  }

  /** The columns of a CTRIA3 card: the padded tag, then the id columns. */
  lemma Ctria3Columns(i: nat, t: Triple)
    ensures RenderAll(Ctria3Fields(i, t)) == [LeftJustify(Ctria3Tag)] + RenderAll(IdFields(Ctria3Ids(i, t)))
  {
    RenderAllCons(Left(Ctria3Tag), IdFields(Ctria3Ids(i, t)));
  }

  /** With every id below 10^8 the card is six full columns and reads back as the
      element's position and its original 0-based triple. */
  lemma Ctria3ReadsBack(i: nat, t: Triple)
    requires FitsSmallField(i, t)
    ensures |Ctria3Card(i, t)| == 6 * FieldWidth
    ensures ParseCtria3(Ctria3Card(i, t)) == Some((i, t))
  {
    var ids := Ctria3Ids(i, t);
    var idcols := RenderAll(IdFields(ids));
    Ctria3IdsFit(i, t);
    IdColumnsWidth(ids);
    IdColumnsRoundTrip(ids);
    Ctria3Columns(i, t);
    ParseCtria3Columns(idcols, i, t);
    ConcatLength([LeftJustify(Ctria3Tag)] + idcols);
  }

  /** An id of 10^8 or more widens its column: the card is longer than six
      columns and no longer reads as a CTRIA3 card. */
  lemma Ctria3Overflows(i: nat, t: Triple)
    requires !FitsSmallField(i, t)
    ensures |Ctria3Card(i, t)| > 6 * FieldWidth
    ensures ParseCtria3(Ctria3Card(i, t)) == None
  {
    var fs := Ctria3Fields(i, t);
    var cols := RenderAll(fs);
    Ctria3Fits(i, t);
    RenderedWidths(fs);
    var k :| 0 <= k < |fs| && |fs[k].text| > FieldWidth;
    ConcatWide(cols, k);
  }

  /** A CTRIA3 card reads back as the element's position and its original 0-based
      triple exactly when all of its ids fit the small-field columns. */
  lemma Ctria3RoundTrip(i: nat, t: Triple)
    ensures ParseCtria3(Ctria3Card(i, t)) == Some((i, t)) <==> FitsSmallField(i, t)
  {
    if FitsSmallField(i, t) {
      Ctria3ReadsBack(i, t);
    } else {
      Ctria3Overflows(i, t);
    }
  }

  /** The node id of a GRID card and the three rendered coordinates each fit one
      8-character column. */
  predicate GridFits<C>(i: nat, p: Point<C>, fmt: C -> string) {
    && i + 1 < SmallFieldLimit
    && |fmt(p.x)| <= FieldWidth
    && |fmt(p.y)| <= FieldWidth
    && |fmt(p.z)| <= FieldWidth
  }

  /** A GRID card is never narrower than six columns, and it is exactly six
      columns wide when its id and coordinates fit; padding never truncates, so a
      wider coordinate rendering shifts every column after it. */
  lemma GridCardWidth<C>(i: nat, p: Point<C>, fmt: C -> string)
    ensures |GridCard(i, p, fmt)| >= 6 * FieldWidth
    ensures |GridCard(i, p, fmt)| == 6 * FieldWidth <==> GridFits(i, p, fmt)
  {
    var fs := GridFields(i, fmt(p.x), fmt(p.y), fmt(p.z));
    var cols := RenderAll(fs);
    RenderedWidths(fs);
    IntFieldWidth(i + 1);
    ConcatAtLeast(cols);
    if GridFits(i, p, fmt) {
      assert FitsColumns(fs);
      ConcatLength(cols);
    } else {
      var k := if i + 1 >= SmallFieldLimit then 1
        else if |fmt(p.x)| > FieldWidth then 3
        else if |fmt(p.y)| > FieldWidth then 4
        else 5;
      assert |fs[k].text| > FieldWidth;
      ConcatWide(cols, k);
    }
  }

  /** A GRID line whose id and coordinate renderings fit is, column by column:
      the padded tag, node id i + 1, the blank coordinate-system column, then the
      x, y and z renderings, each right-justified in its own column. */
  lemma GridLineSplit(i: nat, x: string, y: string, z: string)
    requires i + 1 < SmallFieldLimit && |x| <= FieldWidth && |y| <= FieldWidth && |z| <= FieldWidth
    ensures SplitFields(GridLine(i, x, y, z)) ==
      [LeftJustify(GridTag), RightJustify(NatToString(i + 1)), RightJustify(""),
       RightJustify(x), RightJustify(y), RightJustify(z)]
  {
    var fs := GridFields(i, x, y, z);
    var cols := RenderAll(fs);
    RenderedWidths(fs);
    IntFieldWidth(i + 1);
    assert FitsColumns(fs);
    SplitConcat(cols);
    assert cols == [Render(fs[0]), Render(fs[1]), Render(fs[2]), Render(fs[3]), Render(fs[4]), Render(fs[5])];
  }

  /** The GRID card of a point whose id and coordinates fit: its columns are the
      padded tag, node id i + 1, a blank column and the point's x, y and z, in
      that order. */
  lemma GridCardColumns<C>(i: nat, p: Point<C>, fmt: C -> string)
    requires GridFits(i, p, fmt)
    ensures SplitFields(GridCard(i, p, fmt)) ==
      [LeftJustify(GridTag), RightJustify(NatToString(i + 1)), RightJustify(""),
       RightJustify(fmt(p.x)), RightJustify(fmt(p.y)), RightJustify(fmt(p.z))]
  {
    GridLineSplit(i, fmt(p.x), fmt(p.y), fmt(p.z));
  }

  /** GridLineSplit for a line already known to be a GRID line; a separate step so
      that the solver never unfolds the line's construction and its splitting
      together. */
  lemma SplitGridLine(line: string, i: nat, x: string, y: string, z: string)
    requires i + 1 < SmallFieldLimit && |x| <= FieldWidth && |y| <= FieldWidth && |z| <= FieldWidth
    requires line == GridLine(i, x, y, z)
    ensures SplitFields(line) ==
      [LeftJustify(GridTag), RightJustify(NatToString(i + 1)), RightJustify(""),
       RightJustify(x), RightJustify(y), RightJustify(z)]
  {
    GridLineSplit(i, x, y, z);
  }

  /** Reads the node id column of a GRID card back as the point's 0-based position. */
  function ParseGridPosition(line: string): (r: Option<nat>)
  {
    ReadGridPosition(SplitFields(line))
  }

  function ReadGridPosition(cols: seq<string>): (r: Option<nat>)
    ensures r.Some? ==> |cols| >= 2 && cols[0] == LeftJustify(GridTag)
  {
    if |cols| < 2 || cols[0] != LeftJustify(GridTag) || |cols[1]| != FieldWidth then None
    else
      match ParseIntField(cols[1])
      case Some(id) => if id >= 1 then Some(id - 1) else None
      case None => None
  }

  /** The first three columns of a GRID card. */
  lemma GridColumns(i: nat, x: string, y: string, z: string)
    ensures |RenderAll(GridFields(i, x, y, z))| == 6
    ensures RenderAll(GridFields(i, x, y, z))[0] == LeftJustify(GridTag)
    ensures RenderAll(GridFields(i, x, y, z))[1] == Render(IntField(i + 1))
    ensures RenderAll(GridFields(i, x, y, z))[2] == RightJustify("")
  {
  }

  /** A GRID line for position `i` reads back as `i`, i.e. carries node id i + 1,
      whenever that id fits its column, whatever the coordinates. */
  lemma GridLineRoundTrip(i: nat, x: string, y: string, z: string)
    requires i + 1 < SmallFieldLimit
    ensures ParseGridPosition(GridLine(i, x, y, z)) == Some(i)
  {
    var cols := RenderAll(GridFields(i, x, y, z));
    GridColumns(i, x, y, z);
    IntFieldWidth(i + 1);
    SplitLeadingColumns(cols);
    ReadGridColumns(SplitFields(Concat(cols)), i);
  }

  /** Columns starting with the padded GRID tag and node id i + 1 read back as `i`. */
  lemma ReadGridColumns(cols: seq<string>, i: nat)
    requires |cols| >= 2 && cols[0] == LeftJustify(GridTag)
    requires cols[1] == Render(IntField(i + 1)) && |cols[1]| == FieldWidth
    ensures ReadGridPosition(cols) == Some(i)
  {
    IntFieldRoundTrip(i + 1);
  }

  /** The GRID card of the point at position `i` reads back as `i`. */
  lemma GridPositionRoundTrip<C>(i: nat, p: Point<C>, fmt: C -> string)
    requires i + 1 < SmallFieldLimit
    ensures ParseGridPosition(GridCard(i, p, fmt)) == Some(i)
  {
    GridLineRoundTrip(i, fmt(p.x), fmt(p.y), fmt(p.z));
  }

  /** GridLineRoundTrip for a line already known to be a GRID line; a separate
      step so that the solver never unfolds the line's construction and its
      reading together. */
  lemma GridLineReadsBack(line: string, i: nat, x: string, y: string, z: string)
    requires i + 1 < SmallFieldLimit && line == GridLine(i, x, y, z)
    ensures ParseGridPosition(line) == Some(i)
  {
    GridLineRoundTrip(i, x, y, z);
  }

  /** Lines holding the GRID cards of `points` from index 4 on. */
  predicate GridCardsFrom<C>(lines: seq<string>, points: seq<Point<C>>, fmt: C -> string) {
    |lines| >= 4 + |points| &&
    forall k :: 4 <= k < 4 + |points| ==> lines[k] == GridCard(k - 4, points[k - 4], fmt)
  }

  /** Any such line k reads back as position k - 4. Stated over an arbitrary
      sequence of lines so that the proof never sees the rest of the output. */
  lemma GridLinesReadBack<C>(lines: seq<string>, points: seq<Point<C>>, fmt: C -> string, k: nat)
    requires GridCardsFrom(lines, points, fmt)
    requires 4 <= k < 4 + |points| && |points| < SmallFieldLimit
    ensures ParseGridPosition(lines[k]) == Some(k - 4)
  {
    var p := points[k - 4];
    GridLineReadsBack(lines[k], k - 4, fmt(p.x), fmt(p.y), fmt(p.z));
  }

  /** Any such line k splits into the columns of the GRID card of point k - 4. */
  lemma GridLinesSplit<C>(lines: seq<string>, points: seq<Point<C>>, fmt: C -> string, k: nat)
    requires GridCardsFrom(lines, points, fmt)
    requires 4 <= k < 4 + |points| && GridFits(k - 4, points[k - 4], fmt)
    ensures SplitFields(lines[k]) ==
      [LeftJustify(GridTag), RightJustify(NatToString(k - 3)), RightJustify(""),
       RightJustify(fmt(points[k - 4].x)), RightJustify(fmt(points[k - 4].y)), RightJustify(fmt(points[k - 4].z))]
  {
    var p := points[k - 4];
    SplitGridLine(lines[k], k - 4, fmt(p.x), fmt(p.y), fmt(p.z));
  }

  /** One instance of the GRID part of BulkLines' contract, split out to keep the
      proofs of the per-line lemmas small. */
  lemma GridLineIs<C>(points: seq<Point<C>>, cells: seq<Triple>, fmt: C -> string, k: nat)
    requires 4 <= k < 4 + |points|
    ensures BulkLines(points, cells, fmt)[k] == GridCard(k - 4, points[k - 4], fmt)
  {
  }

  /** Line k of the output, for 4 <= k < 4 + |points|, is the GRID card of the
      point at position k - 4 and reads back as that position. */
  lemma GridLineAt<C>(points: seq<Point<C>>, cells: seq<Triple>, fmt: C -> string, k: nat)
    requires 4 <= k < 4 + |points| && |points| < SmallFieldLimit
    ensures ParseGridPosition(BulkLines(points, cells, fmt)[k]) == Some(k - 4)
  {
    GridLinesReadBack(BulkLines(points, cells, fmt), points, fmt, k);
  }

  /** One instance of the CTRIA3 part of BulkLines' contract, split out to keep
      the proofs of the per-line lemmas small. */
  lemma Ctria3LineIs<C>(points: seq<Point<C>>, cells: seq<Triple>, fmt: C -> string, k: nat)
    requires 4 + |points| <= k < 4 + |points| + |cells|
    ensures BulkLines(points, cells, fmt)[k] == Ctria3Card(k - 4 - |points|, cells[k - 4 - |points|])
  {
  }

  /** The columns of output line k in the GRID range are those of the GRID card
      of the point at position k - 4: its node id, then its own coordinates. */
  lemma GridLineColumns<C>(points: seq<Point<C>>, cells: seq<Triple>, fmt: C -> string, k: nat)
    requires 4 <= k < 4 + |points| && GridFits(k - 4, points[k - 4], fmt)
    ensures SplitFields(BulkLines(points, cells, fmt)[k]) ==
      [LeftJustify(GridTag), RightJustify(NatToString(k - 3)), RightJustify(""),
       RightJustify(fmt(points[k - 4].x)), RightJustify(fmt(points[k - 4].y)), RightJustify(fmt(points[k - 4].z))]
  {
    GridLinesSplit(BulkLines(points, cells, fmt), points, fmt, k);
  }

  /** Every point's id and coordinates fit their columns. */
  predicate AllGridsFit<C>(points: seq<Point<C>>, fmt: C -> string) {
    forall i :: 0 <= i < |points| ==> GridFits(i, points[i], fmt)
  }

  /** The GRID lines carry the points in order: line k holds node id k - 3 and
      the three renderings of point k - 4's coordinates in columns 4 to 6. */
  lemma PointsWritten<C>(points: seq<Point<C>>, cells: seq<Triple>, fmt: C -> string)
    requires AllGridsFit(points, fmt)
    ensures forall k :: 4 <= k < 4 + |points| ==>
      SplitFields(BulkLines(points, cells, fmt)[k]) ==
        [LeftJustify(GridTag), RightJustify(NatToString(k - 3)), RightJustify(""),
         RightJustify(fmt(points[k - 4].x)), RightJustify(fmt(points[k - 4].y)), RightJustify(fmt(points[k - 4].z))]
  {
    forall k | 4 <= k < 4 + |points|
      ensures SplitFields(BulkLines(points, cells, fmt)[k]) ==
        [LeftJustify(GridTag), RightJustify(NatToString(k - 3)), RightJustify(""),
         RightJustify(fmt(points[k - 4].x)), RightJustify(fmt(points[k - 4].y)), RightJustify(fmt(points[k - 4].z))]
    {
      GridLineColumns(points, cells, fmt, k);
    }
  }

  /** Line k of the output, for 4 + |points| <= k < |points| + |cells| + 4, is the
      CTRIA3 card of the triangle at position k - 4 - |points|. */
  lemma Ctria3LineAt<C>(points: seq<Point<C>>, cells: seq<Triple>, fmt: C -> string, k: nat)
    requires 4 + |points| <= k < 4 + |points| + |cells|
    requires FitsSmallField(k - 4 - |points|, cells[k - 4 - |points|])
    ensures |BulkLines(points, cells, fmt)[k]| == 6 * FieldWidth
    ensures ParseCtria3(BulkLines(points, cells, fmt)[k]) == Some((k - 4 - |points|, cells[k - 4 - |points|]))
  {
    Ctria3ReadsBack(k - 4 - |points|, cells[k - 4 - |points|]);
  }

  /** Node ids are dense: the GRID lines follow the four header lines, one per
      point in input order, and the one for the point at 0-based position i
      carries node id i + 1. */
  lemma NodeIdsDense<C>(points: seq<Point<C>>, cells: seq<Triple>, fmt: C -> string)
    requires |points| < SmallFieldLimit
    ensures forall k :: 4 <= k < 4 + |points| ==>
      ParseGridPosition(BulkLines(points, cells, fmt)[k]) == Some(k - 4)
  {
    forall k | 4 <= k < 4 + |points|
      ensures ParseGridPosition(BulkLines(points, cells, fmt)[k]) == Some(k - 4)
    {
      GridLineAt(points, cells, fmt, k);
    }
  }

  /** Every element id fits its column. */
  predicate AllFitSmallField(cells: seq<Triple>) {
    forall i :: 0 <= i < |cells| ==> FitsSmallField(i, cells[i])
  }

  /** Element ids are dense and node references round-trip: the CTRIA3 lines
      follow the GRID lines, one per triangle in input order, and the one for the
      triangle at 0-based position i reads back as (i, its original triple). */
  lemma ElementsRoundTrip<C>(points: seq<Point<C>>, cells: seq<Triple>, fmt: C -> string)
    requires AllFitSmallField(cells)
    ensures forall k :: 4 + |points| <= k < 4 + |points| + |cells| ==>
      ParseCtria3(BulkLines(points, cells, fmt)[k]) == Some((k - 4 - |points|, cells[k - 4 - |points|]))
  {
    forall k | 4 + |points| <= k < 4 + |points| + |cells|
      ensures ParseCtria3(BulkLines(points, cells, fmt)[k]) == Some((k - 4 - |points|, cells[k - 4 - |points|]))
    {
      Ctria3LineAt(points, cells, fmt, k);
    }
  }

  /** An illustration that node references are never checked against the number
      of points: a single triangle naming the point just past the last one still
      gets its CTRIA3 line, with the reference written as given. The general fact
      is ElementsRoundTrip, which places no bound on the references. */
  lemma UncheckedReferences<C>(points: seq<Point<C>>, fmt: C -> string)
    requires |points| + 1 < SmallFieldLimit
    ensures var t := Triple(|points|, |points|, |points|);
      && |BulkLines(points, [t], fmt)| == |points| + 6
      && ParseCtria3(BulkLines(points, [t], fmt)[4 + |points|]) == Some((0, t))
  {
    var t := Triple(|points|, |points|, |points|);
    Ctria3ReadsBack(0, t);
  }

  /** A GRID card line: its first column is the padded GRID tag. */
  predicate IsGridLine(line: string) {
    FirstColumn(line) == LeftJustify(GridTag)
  }

  /** A CTRIA3 card line: its first column is the padded CTRIA3 tag. */
  predicate IsCtria3Line(line: string) {
    FirstColumn(line) == LeftJustify(Ctria3Tag)
  }

  /** A tagged line starts with the tag's initial. */
  lemma TagInitials(line: string)
    ensures IsGridLine(line) ==> |line| >= 1 && line[0] == 'G'
    ensures IsCtria3Line(line) ==> |line| >= 1 && line[0] == 'C'
  {
    if IsGridLine(line) {
      assert LeftJustify(GridTag)[0] == 'G';
    }
    if IsCtria3Line(line) {
      assert LeftJustify(Ctria3Tag)[0] == 'C';
    }
  }

  lemma GridCardIsGridLine<C>(i: nat, p: Point<C>, fmt: C -> string)
    ensures IsGridLine(GridCard(i, p, fmt))
  {
    GridColumns(i, fmt(p.x), fmt(p.y), fmt(p.z));
    FirstColumnOfLine(RenderAll(GridFields(i, fmt(p.x), fmt(p.y), fmt(p.z))));
  }

  lemma Ctria3CardIsCtria3Line(i: nat, t: Triple)
    ensures IsCtria3Line(Ctria3Card(i, t))
  {
    Ctria3Columns(i, t);
    FirstColumnOfLine([LeftJustify(Ctria3Tag)] + RenderAll(IdFields(Ctria3Ids(i, t))));
  }

  /** None of the framing lines is a GRID or CTRIA3 card line. */
  lemma FramingUntagged()
    ensures !IsGridLine(CommentLine) && !IsCtria3Line(CommentLine)
    ensures !IsGridLine(BeginBulk) && !IsCtria3Line(BeginBulk)
    ensures !IsGridLine(PshellCard) && !IsCtria3Line(PshellCard)
    ensures !IsGridLine(Mat1Card) && !IsCtria3Line(Mat1Card)
    ensures !IsGridLine(EndData) && !IsCtria3Line(EndData)
  {
    TagInitials(CommentLine);
    TagInitials(BeginBulk);
    TagInitials(PshellCard);
    TagInitials(Mat1Card);
    TagInitials(EndData);
    assert CommentLine[0] == '$' && BeginBulk[0] == 'B' && EndData[0] == 'E';
    assert PshellCard[0] == 'P' && Mat1Card[0] == 'M';
  }

  /** A line is never both a GRID and a CTRIA3 card line. */
  lemma KindsDisjoint(line: string)
    ensures !(IsGridLine(line) && IsCtria3Line(line))
  {
    TagInitials(line);
  }

  lemma GridLineKind<C>(points: seq<Point<C>>, cells: seq<Triple>, fmt: C -> string, k: nat)
    requires 4 <= k < 4 + |points|
    ensures IsGridLine(BulkLines(points, cells, fmt)[k])
    ensures !IsCtria3Line(BulkLines(points, cells, fmt)[k])
  {
    var line := BulkLines(points, cells, fmt)[k];
    GridLineIs(points, cells, fmt, k);
    GridCardIsGridLine(k - 4, points[k - 4], fmt);
    KindsDisjoint(line);
  }

  lemma Ctria3LineKind<C>(points: seq<Point<C>>, cells: seq<Triple>, fmt: C -> string, k: nat)
    requires 4 + |points| <= k < 4 + |points| + |cells|
    ensures IsCtria3Line(BulkLines(points, cells, fmt)[k])
    ensures !IsGridLine(BulkLines(points, cells, fmt)[k])
  {
    var line := BulkLines(points, cells, fmt)[k];
    Ctria3LineIs(points, cells, fmt, k);
    Ctria3CardIsCtria3Line(k - 4 - |points|, cells[k - 4 - |points|]);
    KindsDisjoint(line);
  }

  lemma FramingLineKind<C>(points: seq<Point<C>>, cells: seq<Triple>, fmt: C -> string, k: nat)
    requires k < 4 || k == |points| + |cells| + 4
    ensures !IsGridLine(BulkLines(points, cells, fmt)[k])
    ensures !IsCtria3Line(BulkLines(points, cells, fmt)[k])
  {
    var lines := BulkLines(points, cells, fmt);
    FramingUntagged();
    if k == 0 {
      assert lines[k] == CommentLine;
    } else if k == 1 {
      assert lines[k] == BeginBulk;
    } else if k == 2 {
      assert lines[k] == PshellCard;
    } else if k == 3 {
      assert lines[k] == Mat1Card;
    } else {
      assert lines[k] == EndData;
    }
  }

  /** The kind of one output line, read off its first column. */
  lemma LineKindAt<C>(points: seq<Point<C>>, cells: seq<Triple>, fmt: C -> string, k: nat)
    requires k < |points| + |cells| + 5
    ensures IsGridLine(BulkLines(points, cells, fmt)[k]) <==> 4 <= k < 4 + |points|
    ensures IsCtria3Line(BulkLines(points, cells, fmt)[k]) <==> 4 + |points| <= k < 4 + |points| + |cells|
  {
    if 4 <= k < 4 + |points| {
      GridLineKind(points, cells, fmt, k);
    } else if 4 + |points| <= k < 4 + |points| + |cells| {
      Ctria3LineKind(points, cells, fmt, k);
    } else {
      FramingLineKind(points, cells, fmt, k);
    }
  }

  /** The GRID cards are exactly the lines 4 .. 3 + |points| and the CTRIA3 cards
      exactly the lines after them up to ENDDATA: every GRID card precedes every
      CTRIA3 card, and both follow the PSHELL and MAT1 cards. */
  lemma CardOrder<C>(points: seq<Point<C>>, cells: seq<Triple>, fmt: C -> string)
    ensures forall k :: 0 <= k < |BulkLines(points, cells, fmt)| ==>
      (IsGridLine(BulkLines(points, cells, fmt)[k]) <==> 4 <= k < 4 + |points|)
    ensures forall k :: 0 <= k < |BulkLines(points, cells, fmt)| ==>
      (IsCtria3Line(BulkLines(points, cells, fmt)[k]) <==> 4 + |points| <= k < 4 + |points| + |cells|)
  {
    forall k | 0 <= k < |BulkLines(points, cells, fmt)|
      ensures IsGridLine(BulkLines(points, cells, fmt)[k]) <==> 4 <= k < 4 + |points|
      ensures IsCtria3Line(BulkLines(points, cells, fmt)[k]) <==> 4 + |points| <= k < 4 + |points| + |cells|
    {
      LineKindAt(points, cells, fmt, k);
    }
  }
}
