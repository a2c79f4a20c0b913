/** The small-field column discipline: every field of a card is 8 characters wide,
    the leading tag left-justified (Python's `:<8`) and every other field
    right-justified (`:>8`). Python padding never truncates, so content longer
    than 8 characters keeps its full length and pushes later fields to the right. */
module Columns {

  const FieldWidth: nat := 8

  function Max(a: nat, b: nat): nat {
    if a >= b then a else b
  }

  function Spaces(k: nat): (r: string)
    ensures |r| == k
    ensures forall i :: 0 <= i < k ==> r[i] == ' '
  {
    if k == 0 then [] else [' '] + Spaces(k - 1)
  }

  /** `s` preceded by enough spaces to fill the column (`:>8`). */
  function RightJustify(s: string): (r: string)
    ensures |r| == Max(FieldWidth, |s|)
  {
    if |s| >= FieldWidth then s else Spaces(FieldWidth - |s|) + s
  }

  /** `s` followed by enough spaces to fill the column (`:<8`). */
  function LeftJustify(s: string): (r: string)
    ensures |r| == Max(FieldWidth, |s|)
  {
    if |s| >= FieldWidth then s else s + Spaces(FieldWidth - |s|)
  }

  /** A right-justified field is the text itself behind padding spaces. */
  lemma {:induction false} RightJustifyShape(s: string)
    ensures RightJustify(s) == Spaces(Max(FieldWidth, |s|) - |s|) + s
  {
    if |s| >= FieldWidth {
      assert Spaces(0) + s == s;
    }
  }

  /** A left-justified field is the text itself followed by padding spaces. */
  lemma {:induction false} LeftJustifyShape(s: string)
    ensures LeftJustify(s) == s + Spaces(Max(FieldWidth, |s|) - |s|)
  {
    if |s| >= FieldWidth {
      assert s + Spaces(0) == s;
    }
  }

  /** Drops the leading spaces of a field, as a reader of a right-justified column does. */
  function TrimLeft(s: string): (r: string)
    ensures |r| <= |s|
    ensures r == [] || r[0] != ' '
  {
    if s != [] && s[0] == ' ' then TrimLeft(s[1..]) else s
  }

  /** Drops the trailing spaces of a field, as a reader of a left-justified column does. */
  function TrimRight(s: string): (r: string)
    ensures |r| <= |s|
    ensures r == [] || r[|r| - 1] != ' '
  {
    if s != [] && s[|s| - 1] == ' ' then TrimRight(s[..|s| - 1]) else s
  }

  /** Trimming removes nothing but leading spaces: the field is the removed
      spaces followed by what is left. */
  lemma {:induction false} TrimLeftRemovesSpaces(s: string)
    ensures s == Spaces(|s| - |TrimLeft(s)|) + TrimLeft(s)
    decreases |s|
  {
    if s != [] && s[0] == ' ' {
      TrimLeftRemovesSpaces(s[1..]);
      var k := |s[1..]| - |TrimLeft(s[1..])|;
      assert Spaces(k + 1) == [' '] + Spaces(k);
      assert s == [' '] + s[1..];
    } else {
      assert Spaces(0) + s == s;
    }
  }

  /** Trimming removes nothing but trailing spaces: the field is what is left
      followed by the removed spaces. */
  lemma {:induction false} TrimRightRemovesSpaces(s: string)
    ensures s == TrimRight(s) + Spaces(|s| - |TrimRight(s)|)
    decreases |s|
  {
    if s != [] && s[|s| - 1] == ' ' {
      var init := s[..|s| - 1];
      TrimRightRemovesSpaces(init);
      var k := |init| - |TrimRight(init)|;
      SpacesSnoc(k);
      assert s == init + [' '];
    } else {
      assert s + Spaces(0) == s;
    }
  }

  lemma {:induction false} SpacesSnoc(k: nat)
    ensures Spaces(k + 1) == Spaces(k) + [' ']
    decreases k
  {
    if k > 0 {
      SpacesSnoc(k - 1);
      assert Spaces(k + 1) == [' '] + Spaces(k);
    }
  }

  /** Leading padding in front of a text that does not start with a space is trimmed away exactly. */
  lemma {:induction false} TrimLeftPadding(k: nat, s: string)
    requires s == [] || s[0] != ' '
    ensures TrimLeft(Spaces(k) + s) == s
    decreases k
  {
    if k > 0 {
      var padded := Spaces(k) + s;
      assert padded[0] == ' ';
      assert padded[1..] == Spaces(k - 1) + s;
      TrimLeftPadding(k - 1, s);
    } else {
      assert Spaces(k) + s == s;
    }
  }

  /** Trailing padding behind a text that does not end with a space is trimmed away exactly. */
  lemma {:induction false} TrimRightPadding(k: nat, s: string)
    requires s == [] || s[|s| - 1] != ' '
    ensures TrimRight(s + Spaces(k)) == s
    decreases k
  {
    if k > 0 {
      var padded := s + Spaces(k);
      assert padded[|padded| - 1] == ' ';
      assert padded[..|padded| - 1] == s + Spaces(k - 1);
      TrimRightPadding(k - 1, s);
    } else {
      assert s + Spaces(k) == s;
    }
  }

  /** Trimming a right-justified field recovers its content, provided the content
      does not itself start with a space. */
  lemma RightJustifyRoundTrip(s: string)
    requires s == [] || s[0] != ' '
    ensures TrimLeft(RightJustify(s)) == s
  {
    RightJustifyShape(s);
    TrimLeftPadding(Max(FieldWidth, |s|) - |s|, s);
  }

  /** Trimming a left-justified field recovers its content, provided the content
      does not itself end with a space. */
  lemma LeftJustifyRoundTrip(s: string)
    requires s == [] || s[|s| - 1] != ' '
    ensures TrimRight(LeftJustify(s)) == s
  {
    LeftJustifyShape(s);
    TrimRightPadding(Max(FieldWidth, |s|) - |s|, s);
  }

  /** One replacement field of a card's format string: `{text:<8}` or `{text:>8}`. */
  datatype Field = Left(text: string) | Right(text: string)

  function Render(f: Field): (r: string)
    ensures |r| == Max(FieldWidth, |f.text|)
  {
    match f
    case Left(s) => LeftJustify(s)
    case Right(s) => RightJustify(s)
  }

  /** Every field's text fits its column, so nothing is widened. */
  predicate FitsColumns(fields: seq<Field>) {
    forall k :: 0 <= k < |fields| ==> |fields[k].text| <= FieldWidth
  }

  function RenderAll(fields: seq<Field>): (r: seq<string>)
    ensures |r| == |fields|
    ensures forall k :: 0 <= k < |fields| ==> r[k] == Render(fields[k])
  {
    seq(|fields|, k requires 0 <= k < |fields| => Render(fields[k]))
  }

  lemma RenderAllCons(f: Field, rest: seq<Field>)
    ensures RenderAll([f] + rest) == [Render(f)] + RenderAll(rest)
  {
  }

  lemma RenderAll4(a: Field, b: Field, c: Field, d: Field)
    ensures RenderAll([a, b, c, d]) == [Render(a), Render(b), Render(c), Render(d)]
  {
    var r := RenderAll([a, b, c, d]);
    assert r[0] == Render(a) && r[1] == Render(b) && r[2] == Render(c) && r[3] == Render(d);
  }

  lemma RenderAll5(a: Field, b: Field, c: Field, d: Field, e: Field)
    ensures RenderAll([a, b, c, d, e]) == [Render(a), Render(b), Render(c), Render(d), Render(e)]
  {
    var r := RenderAll([a, b, c, d, e]);
    assert r[0] == Render(a) && r[1] == Render(b) && r[2] == Render(c) && r[3] == Render(d) && r[4] == Render(e);
  }

  /** Strings written one after the other. */
  function Concat(parts: seq<string>): string
  {
    if parts == [] then [] else parts[0] + Concat(parts[1..])
  }

  /** A card line: its fields rendered and written one after the other. */
  function Line(fields: seq<Field>): string {
    Concat(RenderAll(fields))
  }

  /** The rendered columns are all exactly 8 wide precisely when every text fits. */
  lemma RenderedWidths(fields: seq<Field>)
    ensures FixedWidth(RenderAll(fields)) <==> FitsColumns(fields)
    ensures forall k :: 0 <= k < |fields| ==> |RenderAll(fields)[k]| >= FieldWidth
  {
    var r := RenderAll(fields);
    if FixedWidth(r) {
      forall k | 0 <= k < |fields|
        ensures |fields[k].text| <= FieldWidth
      {
        assert |r[k]| == FieldWidth;
      }
    }
  }

  predicate FixedWidth(fields: seq<string>) {
    forall k :: 0 <= k < |fields| ==> |fields[k]| == FieldWidth
  }

  lemma FixedWidthCons(first: string, rest: seq<string>)
    requires |first| == FieldWidth && FixedWidth(rest)
    ensures FixedWidth([first] + rest)
  {
  }

  lemma {:induction false} ConcatLength(fields: seq<string>)
    requires FixedWidth(fields)
    ensures |Concat(fields)| == FieldWidth * |fields|
    decreases |fields|
  {
    if fields != [] {
      ConcatLength(fields[1..]);
    }
  }

  /** Cuts a line into consecutive 8-character columns; a final shorter remainder,
      if any, becomes the last field. */
  function SplitFields(line: string): (r: seq<string>)
    ensures Concat(r) == line
    ensures forall k :: 0 <= k < |r| ==> 1 <= |r[k]| <= FieldWidth
    ensures forall k :: 0 <= k < |r| - 1 ==> |r[k]| == FieldWidth
    decreases |line|
  {
    if line == [] then []
    else if |line| <= FieldWidth then [line]
    else
      var rest := SplitFields(line[FieldWidth..]);
      assert line == line[..FieldWidth] + line[FieldWidth..];
      assert ([line[..FieldWidth]] + rest)[1..] == rest;
      [line[..FieldWidth]] + rest
  }

  /** Splitting a line written from full-width fields gives the fields back. */
  lemma {:induction false} SplitConcat(fields: seq<string>)
    requires FixedWidth(fields)
    ensures SplitFields(Concat(fields)) == fields
    decreases |fields|
  {
    if fields != [] {
      var rest := fields[1..];
      SplitConcat(rest);
      var line := Concat(fields);
      assert line == fields[0] + Concat(rest);
      if rest == [] {
        assert Concat(rest) == [];
        assert line == fields[0];
      } else {
        ConcatLength(rest);
        assert line[..FieldWidth] == fields[0];
        assert line[FieldWidth..] == Concat(rest);
        assert fields == [fields[0]] + rest;
      }
    }
  }

  /** One over-wide field makes the whole line longer than its column count allows. */
  lemma {:induction false} ConcatWide(fields: seq<string>, k: int)
    requires forall j :: 0 <= j < |fields| ==> |fields[j]| >= FieldWidth
    requires 0 <= k < |fields| && |fields[k]| > FieldWidth
    ensures |Concat(fields)| > FieldWidth * |fields|
    decreases |fields|
  {
    if k == 0 {
      ConcatAtLeast(fields[1..]);
    } else {
      ConcatWide(fields[1..], k - 1);
    }
  }

  lemma {:induction false} ConcatAtLeast(fields: seq<string>)
    requires forall j :: 0 <= j < |fields| ==> |fields[j]| >= FieldWidth
    ensures |Concat(fields)| >= FieldWidth * |fields|
    decreases |fields|
  {
    if fields != [] {
      ConcatAtLeast(fields[1..]);
    }
  }

  /** A full-width first column is split off unchanged, whatever follows it. */
  lemma {:induction false} SplitFirst(first: string, rest: string)
    requires |first| == FieldWidth && rest != []
    ensures SplitFields(first + rest) == [first] + SplitFields(rest)
  {
    var line := first + rest;
    assert line[..FieldWidth] == first;
    assert line[FieldWidth..] == rest;
  }

  lemma {:induction false} ConcatCons(first: string, rest: seq<string>)
    ensures Concat([first] + rest) == first + Concat(rest)
  {
    assert ([first] + rest)[1..] == rest;
  }

  /** The line of a card with four fields, written out. */
  lemma Concat4(a: string, b: string, c: string, d: string)
    ensures Concat([a, b, c, d]) == a + b + c + d
  {
    ConcatCons(d, []);
    ConcatCons(c, [d]);
    ConcatCons(b, [c, d]);
    ConcatCons(a, [b, c, d]);
  }

  /** The line of a card with five fields, written out. */
  lemma Concat5(a: string, b: string, c: string, d: string, e: string)
    ensures Concat([a, b, c, d, e]) == a + b + c + d + e
  {
    Concat4(b, c, d, e);
    ConcatCons(a, [b, c, d, e]);
  }

  /** The first column of a line: its first 8 characters, or the whole line when shorter. */
  function FirstColumn(line: string): (r: string)
    ensures |r| <= FieldWidth && |r| <= |line| && r == line[..|r|]
    ensures |line| >= FieldWidth ==> |r| == FieldWidth
  {
    if |line| < FieldWidth then line else line[..FieldWidth]
  }

  /** A line whose first rendered column is full width starts with that column. */
  lemma {:induction false} FirstColumnOfLine(cols: seq<string>)
    requires |cols| >= 1 && |cols[0]| == FieldWidth
    ensures FirstColumn(Concat(cols)) == cols[0]
  {
    assert Concat(cols) == cols[0] + Concat(cols[1..]);
  }

  /** Two full-width leading columns followed by more text are split off unchanged. */
  lemma {:induction false} SplitLeadingColumns(cols: seq<string>)
    requires |cols| >= 3 && |cols[0]| == FieldWidth && |cols[1]| == FieldWidth && cols[2] != []
    ensures |SplitFields(Concat(cols))| >= 3
    ensures SplitFields(Concat(cols))[0] == cols[0] && SplitFields(Concat(cols))[1] == cols[1]
  {
    var rest := Concat(cols[2..]);
    assert rest == cols[2] + Concat(cols[2..][1..]);
    assert Concat(cols[1..]) == cols[1] + rest by { assert cols[1..][1..] == cols[2..]; }
    assert Concat(cols) == cols[0] + (cols[1] + rest);
    SplitFirst(cols[0], cols[1] + rest);
    SplitFirst(cols[1], rest);
    assert SplitFields(rest) != [];
  }
}
