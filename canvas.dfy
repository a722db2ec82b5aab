/** The character grid of src/canvas.rs: a `width` x `height` matrix stored
    as rows (`data[y][x]`), created blank, read and written one cell at a
    time, and rendered as text one line per row. */
module Grid {
  import opened Tokens

  /** `Point(pub usize, pub usize)`: `x` is field `.0`, `y` is field `.1`. */
  datatype Point = Point(x: Usize, y: Usize)

  /** `rows` has `height` rows of `width` cells each. */
  predicate IsGrid(rows: seq<seq<char>>, width: nat, height: nat) {
    |rows| == height && forall y :: 0 <= y < height ==> |rows[y]| == width
  }

  /** `vec![vec![' '; width]; height]`. */
  function Blank(width: nat, height: nat): (rows: seq<seq<char>>)
    ensures IsGrid(rows, width, height)
    ensures forall y, x :: 0 <= y < height && 0 <= x < width ==> rows[y][x] == ' '
  {
    seq(height, _ => seq(width, _ => ' '))
  }

  /** The rows after `data[y][x] = ch`. */
  function Updated(rows: seq<seq<char>>, x: nat, y: nat, ch: char): (r: seq<seq<char>>)
    requires y < |rows| && x < |rows[y]|
    ensures |r| == |rows|
    ensures forall j :: 0 <= j < |rows| ==> |r[j]| == |rows[j]|
    ensures r[y][x] == ch
    ensures forall j, i :: 0 <= j < |rows| && 0 <= i < |rows[j]| && (j != y || i != x) ==> r[j][i] == rows[j][i]
  {
    rows[y := rows[y][x := ch]]
  }

  /** The `Display` text: a left fold over the rows that appends each row's
      characters and a newline. */
  function Render(rows: seq<seq<char>>): (text: string)
    ensures rows == [] <==> text == []
  {
    if rows == [] then [] else Render(rows[..|rows| - 1]) + rows[|rows| - 1] + "\n"
  }

  /** Every row is followed by a newline, so the text of at least one row
      ends with one, and appending a row appends its line. */
  lemma RenderAppend(rows: seq<seq<char>>, row: seq<char>)
    ensures Render(rows + [row]) == Render(rows) + row + "\n"
    ensures Render(rows + [row])[|Render(rows + [row])| - 1] == '\n'
  {
    assert (rows + [row])[..|rows|] == rows;
  }

  /** Where line `i` starts in a text made of lines of `width` characters
      plus `'\n'`.  Defined by recursion so that proofs about the layout stay
      linear; `OffsetIsProduct` gives the closed form. */
  function Offset(i: nat, width: nat): nat {
    if i == 0 then 0 else Offset(i - 1, width) + width + 1
  }

  lemma {:induction false} OffsetIsProduct(i: nat, width: nat)
    ensures Offset(i, width) == i * (width + 1)
  {
    if i > 0 {
      OffsetIsProduct(i - 1, width);
    }
  }

  lemma {:induction false} OffsetMonotone(i: nat, j: nat, width: nat)
    requires i <= j
    ensures Offset(i, width) <= Offset(j, width)
    decreases j
  {
    if i < j {
      OffsetMonotone(i, j - 1, width);
    }
  }

  /** Line `i` (with its newline) of a text laid out `width` characters
      wide; empty when the text is too short to hold it. */
  function LineOf(text: string, width: nat, i: nat): string {
    if Offset(i + 1, width) <= |text| then text[Offset(i, width)..Offset(i + 1, width)] else []
  }

  /** Appending text after a complete line leaves that line unchanged. */
  lemma LineOfAppend(t: string, u: string, width: nat, i: nat)
    requires Offset(i + 1, width) <= |t|
    ensures LineOf(t + u, width, i) == LineOf(t, width, i)
  {
    assert (t + u)[Offset(i, width)..Offset(i + 1, width)] == t[Offset(i, width)..Offset(i + 1, width)];
  }

  /** A line appended at offset `Offset(i, width)` is line `i`. */
  lemma LineOfLast(t: string, row: seq<char>, width: nat, i: nat)
    requires |t| == Offset(i, width) && |row| == width
    ensures LineOf(t + (row + "\n"), width, i) == row + "\n"
  {
    assert (t + (row + "\n"))[|t|..] == row + "\n";
  }

  /** The rendered text of a `width`-wide grid has `|rows|` lines, each the
      row's characters followed by a newline. */
  lemma {:induction false} RenderLayout(rows: seq<seq<char>>, width: nat)
    requires forall y :: 0 <= y < |rows| ==> |rows[y]| == width
    ensures |Render(rows)| == Offset(|rows|, width)
    ensures forall i :: 0 <= i < |rows| ==>
      LineOf(Render(rows), width, i) == rows[i] + "\n"
    decreases |rows|
  {
    if rows != [] {
      var n := |rows| - 1;
      var front := rows[..n];
      RenderLayout(front, width);
      var t := Render(front);
      assert rows == front + [rows[n]];
      RenderAppend(front, rows[n]);
      var r := t + (rows[n] + "\n");
      assert Render(rows) == r;
      forall i | 0 <= i < |rows|
        ensures LineOf(r, width, i) == rows[i] + "\n"
      {
        if i < n {
          OffsetMonotone(i + 1, n, width);
          LineOfAppend(t, rows[n] + "\n", width, i);
        } else {
          LineOfLast(t, rows[n], width, n);
        }
      }
    }
  }

  /** The rendered text of a grid has `height * (width + 1)` characters. */
  lemma RenderSize(rows: seq<seq<char>>, width: nat)
    requires forall y :: 0 <= y < |rows| ==> |rows[y]| == width
    ensures |Render(rows)| == |rows| * (width + 1)
    ensures forall i :: 0 <= i < |rows| ==>
      LineOf(Render(rows), width, i) == rows[i] + "\n"
  {
    RenderLayout(rows, width);
    OffsetIsProduct(|rows|, width);
  }

  /** The character at column `x` of a line that holds `row` and a newline. */
  lemma LineChar(text: string, width: nat, y: nat, x: nat, row: seq<char>)
    requires |row| == width && x <= width
    requires Offset(y + 1, width) <= |text| && LineOf(text, width, y) == row + "\n"
    ensures Offset(y, width) + x < |text|
    ensures text[Offset(y, width) + x] == if x == width then '\n' else row[x]
  {
    var line := LineOf(text, width, y);
    assert line == text[Offset(y, width)..Offset(y + 1, width)];
    assert line[x] == text[Offset(y, width) + x];
  }

  /** The character at column `x` of line `y` of the rendered text is the
      cell, or the newline after the last column. */
  lemma RenderCell(rows: seq<seq<char>>, width: nat, y: nat, x: nat)
    requires forall j :: 0 <= j < |rows| ==> |rows[j]| == width
    requires y < |rows| && x <= width
    ensures Offset(y, width) + x < |Render(rows)|
    ensures Render(rows)[Offset(y, width) + x] == if x == width then '\n' else rows[y][x]
  {
    RenderLayout(rows, width);
    OffsetMonotone(y + 1, |rows|, width);
    LineChar(Render(rows), width, y, x, rows[y]);
  }

  /** `Canvas`: the grid's dimensions and its rows, updated in place. */
  class Canvas {
    var width: Usize
    var height: Usize
    var data: seq<seq<char>>

    ghost predicate Valid()
      reads this
    {
      IsGrid(data, width, height)
    }

    /** `Canvas::new`: a blank grid of the given size. */
    constructor (width: Usize, height: Usize)
      ensures Valid()
      ensures this.width == width && this.height == height
      ensures data == Blank(width, height)
    {
      this.width := width;
      this.height := height;
      this.data := Blank(width, height);
    }

    function Width(): Usize
      reads this
    {
      width
    }

    function Height(): Usize
      reads this
    {
      height
    }

    /** `get`: the character at column `x` of row `y`; out of range panics. */
    function Get(x: Usize, y: Usize): char
      reads this
      requires Valid() && x < width && y < height
    {
      data[y][x]
    }

    /** `set`: overwrite one cell; nothing else changes. */
    method Set(x: Usize, y: Usize, ch: char)
      requires Valid() && x < width && y < height
      modifies this
      ensures Valid()
      ensures width == old(width) && height == old(height)
      ensures data == Updated(old(data), x, y, ch)
      ensures Get(x, y) == ch
      ensures forall j, i :: 0 <= j < height && 0 <= i < width && (j != y || i != x) ==> Get(i, j) == old(Get(i, j))
    {
      data := data[y := data[y][x := ch]];
    }

    /** `setp`: the same as `set` at the point's coordinates. */
    method SetPoint(p: Point, ch: char)
      requires Valid() && p.x < width && p.y < height
      modifies this
      ensures Valid()
      ensures width == old(width) && height == old(height)
      ensures data == Updated(old(data), p.x, p.y, ch)
      ensures Get(p.x, p.y) == ch
      ensures forall j, i :: 0 <= j < height && 0 <= i < width && (j != p.y || i != p.x) ==> Get(i, j) == old(Get(i, j))
    {
      data := data[p.y := data[p.y][p.x := ch]];
    }

    /** `Display::fmt`: `height` lines, line `y` holding row `y` and a newline. */
    function ToString(): (text: string)
      reads this
      requires Valid()
      ensures |text| == height * (width + 1)
      ensures forall y :: 0 <= y < height ==>
        LineOf(text, width, y) == data[y] + "\n"
    {
      RenderSize(data, width);
      Render(data)
    }
  }

  /** A fresh canvas is blank everywhere, corners included, and its text is
      `height` lines of `width` spaces. */
  lemma BlankRender(width: nat, height: nat)
    ensures |Render(Blank(width, height))| == height * (width + 1)
    ensures forall y :: 0 <= y < height ==>
      LineOf(Render(Blank(width, height)), width, y) == seq(width, _ => ' ') + "\n"
  {
    var rows := Blank(width, height);
    RenderLayout(rows, width);
    OffsetIsProduct(height, width);
    forall y | 0 <= y < height ensures rows[y] == seq(width, _ => ' ') {
    }
  }

  /** `Canvas::new(4, 2)` renders as two lines of four spaces. */
  lemma BlankRenderFourByTwo()
    ensures Render(Blank(4, 2)) == "    \n    \n"
  {
    var rows := Blank(4, 2);
    assert rows[0] == "    " && rows[1] == "    ";
    assert rows[..1][..0] == [];
    assert Render(rows[..1]) == "    \n";
  }

  /** Client check of the canvas operations on the tests of src/canvas.rs. */
  method CanvasExamples()
  {
    var c := new Canvas(5, 3);
    assert c.Width() == 5 && c.Height() == 3;
    var e := new Canvas(10, 5);
    assert e.Get(0, 0) == ' ' && e.Get(9, 0) == ' ' && e.Get(9, 4) == ' ' && e.Get(0, 4) == ' ';
    var d := new Canvas(5, 5);
    d.Set(4, 2, '*');
    assert d.Get(4, 2) == '*';
    assert d.Get(3, 2) == ' ';
    d.SetPoint(Point(1, 1), '#');
    assert d.Get(1, 1) == '#' && d.Get(4, 2) == '*';
  }
}
