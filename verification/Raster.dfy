/**
 * homework3/img/draw.c: an image kept as a file of rows, each a line of `cols` characters and a
 * newline, on which points and lines are drawn by seeking and overwriting.
 */
module Raster {

  const FG_CHAR: char := 'O'
  const BLANK: char := ' '
  const NEWLINE: char := '\n'
  const NUL: char := '\0'

  /** The three commands of main, with its argument orders. */
  datatype Command = VLine(x: int, y1: int, y2: int) | HLine(y: int, x1: int, x2: int) | Point(x: int, y: int)

  function Min(a: int, b: int): int { if a < b then a else b }
  function Max(a: int, b: int): int { if a > b then a else b }

  predicate OnImage(rows: nat, cols: nat, x: int, y: int) { 0 <= x < cols && 0 <= y < rows }

  predicate InBounds(rows: nat, cols: nat, c: Command) {
    match c
    case VLine(x, y1, y2) => OnImage(rows, cols, x, y1) && OnImage(rows, cols, x, y2)
    case HLine(y, x1, x2) => OnImage(rows, cols, x1, y) && OnImage(rows, cols, x2, y)
    case Point(x, y) => OnImage(rows, cols, x, y)
  }

  predicate Covers(c: Command, x: int, y: int) {
    match c
    case VLine(a, y1, y2) => x == a && Min(y1, y2) <= y <= Max(y1, y2)
    case HLine(b, x1, x2) => y == b && Min(x1, x2) <= x <= Max(x1, x2)
    case Point(a, b) => x == a && y == b
  }

  /** The pixels that the commands cover, as (x, y). */
  ghost function Ink(rows: nat, cols: nat, commands: seq<Command>): set<(int, int)> {
    set x, y | 0 <= x < cols && 0 <= y < rows && (exists c :: c in commands && Covers(c, x, y)) :: (x, y)
  }

  // ----- The linear file -----

  function Offset(cols: nat, x: int, y: int): int { y * (cols + 1) + x }

  /** What write does to a file: overwrite, extend, and fill a gap with zeros. */
  function WriteAt(data: seq<char>, pos: nat, bytes: seq<char>): (r: seq<char>)
    ensures |r| == Max(|data|, pos + |bytes|) || bytes == []
    ensures pos + |bytes| <= |data| ==> |r| == |data|
    ensures bytes != [] ==> forall k :: 0 <= k < |r| ==>
      r[k] == if pos <= k < pos + |bytes| then bytes[k - pos] else if k < |data| then data[k] else '\0'
  {
    if bytes == [] then data
    else
      var all := data + seq(Max(0, pos + |bytes| - |data|), _ => NUL);
      all[..pos] + bytes + all[pos + |bytes|..]
  }

  /** lseek with SEEK_SET; a negative offset fails and leaves the position as it was. */
  function Seek(pos: nat, offset: int): (r: nat) { if offset < 0 then pos else offset }

  /** `data` is the image in which exactly the pixels of `ink` are drawn. */
  ghost predicate Shows(rows: nat, cols: nat, data: seq<char>, ink: set<(int, int)>) {
    && |data| == rows * (cols + 1)
    && forall x, y :: 0 <= x <= cols && 0 <= y < rows ==>
         && 0 <= Offset(cols, x, y) < |data|
         && data[Offset(cols, x, y)] == (if x == cols then '\n' else if (x, y) in ink then 'O' else ' ')
  }

  // ----- Two dimensions in one -----

  lemma RowStep(w: nat, y: int, y': int)
    requires y < y'
    ensures y * w + w <= y' * w
  {
    var d := y' - y - 1;
    assert (y + 1 + d) * w == y * w + w + d * w;
    assert d * w >= 0;
  }

  lemma OffsetInFile(rows: nat, cols: nat, x: int, y: int)
    requires 0 <= x <= cols && 0 <= y < rows
    ensures 0 <= Offset(cols, x, y) < rows * (cols + 1)
  {
    RowStep(cols + 1, y, rows);
    assert y * (cols + 1) >= 0;
  }

  /** Positions in rows are apart as they are in the file. */
  lemma OffsetSplits(cols: nat, x: int, y: int, x': int, y': int)
    requires 0 <= x <= cols && 0 <= x' <= cols
    ensures Offset(cols, x, y) <= Offset(cols, x', y') <==> y < y' || (y == y' && x <= x')
  {
    if y < y' {
      RowStep(cols + 1, y, y');
    } else if y' < y {
      RowStep(cols + 1, y', y);
    }
  }

  /** Every byte of the file is the one place of one row. */
  lemma OffsetOf(rows: nat, cols: nat, k: nat) returns (x: int, y: int)
    requires k < rows * (cols + 1)
    ensures 0 <= x <= cols && 0 <= y < rows && Offset(cols, x, y) == k
  {
    var w := cols + 1;
    x, y := k % w, k / w;
    assert k == w * (k / w) + k % w;
    if y >= rows {
      if y > rows {
        RowStep(w, rows, y);
      }
    }
  }

  /** The pixels determine the file. */
  lemma PictureIsUnique(rows: nat, cols: nat, a: seq<char>, b: seq<char>, ink: set<(int, int)>)
    requires Shows(rows, cols, a, ink) && Shows(rows, cols, b, ink)
    ensures a == b
  {
    forall k | 0 <= k < |a|
      ensures a[k] == b[k]
    {
      var x, y := OffsetOf(rows, cols, k);
    }
  }

  /** A run of characters within a row, written in place, draws just that run. */
  lemma WriteDraws(rows: nat, cols: nat, data: seq<char>, ink: set<(int, int)>,
                   x: nat, y: nat, n: nat, bytes: seq<char>, ink': set<(int, int)>)
    requires Shows(rows, cols, data, ink)
    requires 0 < n && x + n <= cols && y < rows
    requires |bytes| == n && forall i :: 0 <= i < n ==> bytes[i] == FG_CHAR
    requires forall a, b :: 0 <= a < cols && 0 <= b < rows ==> ((a, b) in ink' <==> (a, b) in ink || (b == y && x <= a < x + n))
    ensures Offset(cols, x, y) >= 0
    ensures Shows(rows, cols, WriteAt(data, Offset(cols, x, y), bytes), ink')
  {
    var pos := Offset(cols, x, y);
    OffsetInFile(rows, cols, x, y);
    OffsetInFile(rows, cols, x + n - 1, y);
    var after := WriteAt(data, pos, bytes);
    assert data + seq(0, _ => NUL) == data;
    assert after == data[..pos] + bytes + data[pos + n..];
    forall a, b | 0 <= a <= cols && 0 <= b < rows
      ensures 0 <= Offset(cols, a, b) < |after|
      ensures after[Offset(cols, a, b)] == (if a == cols then '\n' else if (a, b) in ink' then 'O' else ' ')
    {
      OffsetInFile(rows, cols, a, b);
      OffsetSplits(cols, x, y, a, b);
      OffsetSplits(cols, a, b, x + n - 1, y);
    }
  }

  // ----- The program -----

  class Drawing {
    const rows: nat
    const cols: nat
    const buffer: array<char>
    var data: seq<char>
    var pos: nat

    predicate Valid()
      reads this
    {
      buffer.Length == cols + 1
    }

    /** The file as open leaves it: empty. */
    constructor (rows: nat, cols: nat)
      ensures Valid() && this.rows == rows && this.cols == cols && data == [] && pos == 0
      ensures fresh(buffer)
    {
      this.rows, this.cols := rows, cols;
      buffer := new char[cols + 1];
      data, pos := [], 0;
    }

    method Lseek(offset: int)
      modifies this`pos
      ensures pos == Seek(old(pos), offset)
    {
      if offset >= 0 {
        pos := offset;
      }
    }

    method Write(n: nat)
      requires n <= buffer.Length
      modifies this`data, this`pos
      ensures data == WriteAt(old(data), old(pos), buffer[..n])
      ensures pos == old(pos) + n
    {
      data := WriteAt(data, pos, buffer[..n]);
      pos := pos + n;
    }

    method WriteChar(ch: char)
      modifies this`data, this`pos
      ensures data == WriteAt(old(data), old(pos), [ch])
      ensures pos == old(pos) + 1
    {
      data := WriteAt(data, pos, [ch]);
      pos := pos + 1;
    }

    method Memset(ch: char, n: nat)
      requires n <= buffer.Length
      modifies buffer
      ensures forall i :: 0 <= i < buffer.Length ==> buffer[i] == if i < n then ch else old(buffer[i])
    {
      for i := 0 to n
        invariant forall k :: 0 <= k < buffer.Length ==> buffer[k] == if k < i then ch else old(buffer[k])
      {
        buffer[i] := ch;
      }
    }

    method InitDraw()
      requires Valid() && data == [] && pos == 0
      modifies this, buffer
      ensures Shows(rows, cols, data, {})
      ensures pos == |data|
    {
      Memset(BLANK, cols);
      buffer[cols] := NEWLINE;
      var bytesWritten := 0;
      ghost var y := 0;
      assert 0 * (cols + 1) == 0;
      while bytesWritten < rows * (cols + 1)
        invariant 0 <= y <= rows && bytesWritten == y * (cols + 1)
        invariant pos == bytesWritten
        invariant Shows(y, cols, data, {})
        invariant forall i :: 0 <= i <= cols ==> buffer[i] == if i < cols then BLANK else NEWLINE
        decreases rows - y
      {
        NextRow(y, cols, data, buffer[..]);
        assert buffer[..cols + 1] == buffer[..];
        Write(cols + 1);
        bytesWritten := bytesWritten + (cols + 1);
        y := y + 1;
        assert y * (cols + 1) == (y - 1) * (cols + 1) + (cols + 1);
      }
      if y < rows {
        RowStep(cols + 1, y, rows);
      }
    }

    method DrawPoint(x: int, y: int)
      requires Valid()
      modifies this`data, this`pos
      ensures data == PointDrawn(cols, old(data), old(pos), x, y)
    {
      Lseek(y * (cols + 1) + x);
      WriteChar(FG_CHAR);
    }

    method DrawHline(y: int, x1: int, x2: int, ghost ink: set<(int, int)>)
      requires Valid() && InBounds(rows, cols, HLine(y, x1, x2))
      requires Shows(rows, cols, data, ink)
      modifies this`data, this`pos, buffer
      ensures Shows(rows, cols, data, ink + Ink(rows, cols, [HLine(y, x1, x2)]))
    {
      var n := Max(x2 - x1, x1 - x2) + 1;
      Memset(FG_CHAR, n);
      Lseek(y * (cols + 1) + Min(x1, x2));
      ghost var before := data;
      var c := HLine(y, x1, x2);
      InkOfOne(rows, cols, c);
      WriteDraws(rows, cols, before, ink, Min(x1, x2), y, n, buffer[..n], ink + Ink(rows, cols, [c]));
      Write(n);
    }

    method DrawVline(x: int, y1: int, y2: int, ghost ink: set<(int, int)>)
      requires Valid() && InBounds(rows, cols, VLine(x, y1, y2))
      requires Shows(rows, cols, data, ink)
      modifies this`data, this`pos
      ensures Shows(rows, cols, data, ink + Ink(rows, cols, [VLine(x, y1, y2)]))
    {
      var i := Min(y1, y2);
      ghost var drawn := ink;
      while i <= Max(y2, y1)
        invariant Min(y1, y2) <= i <= Max(y1, y2) + 1
        invariant Shows(rows, cols, data, drawn)
        invariant forall a, b :: (a, b) in drawn <==> (a, b) in ink || (a == x && Min(y1, y2) <= b < i)
        decreases Max(y1, y2) - i
      {
        PointDraws(rows, cols, data, drawn, pos, x, i);
        DrawPoint(x, i);
        drawn := drawn + {(x, i)};
        i := i + 1;
      }
      InkOfOne(rows, cols, VLine(x, y1, y2));
      ghost var line := Ink(rows, cols, [VLine(x, y1, y2)]);
      forall e: (int, int)
        ensures e in drawn <==> e in ink + line
      {
        var (a, b) := e;
        assert (a, b) in line <==> Covers(VLine(x, y1, y2), a, b);
      }
      assert drawn == ink + line;
    }

    /** The whole program, for any list of commands within the image. */
    method Render(commands: seq<Command>)
      requires Valid() && data == [] && pos == 0
      requires forall c :: c in commands ==> InBounds(rows, cols, c)
      modifies this, buffer
      ensures Shows(rows, cols, data, Ink(rows, cols, commands))
    {
      InitDraw();
      NoInk(rows, cols);
      for i := 0 to |commands|
        invariant Shows(rows, cols, data, Ink(rows, cols, commands[..i]))
      {
        ghost var ink := Ink(rows, cols, commands[..i]);
        var c := commands[i];
        assert c in commands && InBounds(rows, cols, c);
        match c {
          case VLine(x, y1, y2) => DrawVline(x, y1, y2, ink);
          case HLine(y, x1, x2) => DrawHline(y, x1, x2, ink);
          case Point(x, y) =>
            PointDraws(rows, cols, data, ink, pos, x, y);
            DrawPoint(x, y);
            InkOfOne(rows, cols, c);
            assert {(x, y)} == Ink(rows, cols, [c]);
        }
        InkAppend(rows, cols, commands[..i], c);
        assert commands[..i + 1] == commands[..i] + [c];
      }
      assert commands[..|commands|] == commands;
    }
  }

  lemma NextRow(y: nat, cols: nat, data: seq<char>, row: seq<char>)
    requires Shows(y, cols, data, {})
    requires |row| == cols + 1 && forall i :: 0 <= i <= cols ==> row[i] == if i < cols then BLANK else NEWLINE
    ensures Shows(y + 1, cols, WriteAt(data, |data|, row), {})
  {
    var after := WriteAt(data, |data|, row);
    assert (y + 1) * (cols + 1) == y * (cols + 1) + (cols + 1);
    assert after == data + row;
    forall a, b | 0 <= a <= cols && 0 <= b < y + 1
      ensures 0 <= Offset(cols, a, b) < |after|
      ensures after[Offset(cols, a, b)] == if a == cols then NEWLINE else BLANK
    {
      if b < y {
        OffsetInFile(y, cols, a, b);
      }
    }
  }

  /** draw_point: a seek, which may fail, and a write. */
  function PointDrawn(cols: nat, data: seq<char>, pos: nat, x: int, y: int): seq<char> {
    WriteAt(data, Seek(pos, Offset(cols, x, y)), [FG_CHAR])
  }

  lemma PointDraws(rows: nat, cols: nat, data: seq<char>, ink: set<(int, int)>, pos: nat, x: int, y: int)
    requires OnImage(rows, cols, x, y) && Shows(rows, cols, data, ink)
    ensures Shows(rows, cols, PointDrawn(cols, data, pos, x, y), ink + {(x, y)})
  {
    WriteDraws(rows, cols, data, ink, x, y, 1, [FG_CHAR], ink + {(x, y)});
  }

  lemma NoInk(rows: nat, cols: nat)
    ensures Ink(rows, cols, []) == {}
  {
  }

  lemma InkOfOne(rows: nat, cols: nat, c: Command)
    requires InBounds(rows, cols, c)
    ensures forall x, y :: (x, y) in Ink(rows, cols, [c]) <==> Covers(c, x, y)
  {
    assert c in [c];
  }

  lemma InkAppend(rows: nat, cols: nat, commands: seq<Command>, c: Command)
    ensures Ink(rows, cols, commands + [c]) == Ink(rows, cols, commands) + Ink(rows, cols, [c])
  {
    assert c in [c];
    forall d
      ensures d in commands + [c] <==> d in commands || d in [c]
    {
    }
  }

  // ----- Main results -----

  /** The command with its end points exchanged. */
  function Reversed(c: Command): Command {
    match c
    case VLine(x, y1, y2) => VLine(x, y2, y1)
    case HLine(y, x1, x2) => HLine(y, x2, x1)
    case Point(x, y) => c
  }

  /** Two lists of the same commands, in any order and with any end point first, draw the same file. */
  lemma OrderDoesNotMatter(rows: nat, cols: nat, a: seq<Command>, b: seq<Command>, left: seq<char>, right: seq<char>)
    requires forall c :: c in a ==> c in b || Reversed(c) in b
    requires forall c :: c in b ==> c in a || Reversed(c) in a
    requires Shows(rows, cols, left, Ink(rows, cols, a)) && Shows(rows, cols, right, Ink(rows, cols, b))
    ensures left == right
  {
    InkIncludes(rows, cols, a, b);
    InkIncludes(rows, cols, b, a);
    PictureIsUnique(rows, cols, left, right, Ink(rows, cols, a));
  }

  lemma InkIncludes(rows: nat, cols: nat, a: seq<Command>, b: seq<Command>)
    requires forall c :: c in a ==> c in b || Reversed(c) in b
    ensures Ink(rows, cols, a) <= Ink(rows, cols, b)
  {
    forall x, y | 0 <= x < cols && 0 <= y < rows && exists c :: c in a && Covers(c, x, y)
      ensures (x, y) in Ink(rows, cols, b)
    {
      var c :| c in a && Covers(c, x, y);
      assert Covers(Reversed(c), x, y);
    }
  }

  /** On a fresh image a point, wherever it is, is drawn rightly if and only if it is on the image. */
  lemma PointIsRightOnImage(rows: nat, cols: nat, data: seq<char>, x: int, y: int)
    requires Shows(rows, cols, data, {})
    ensures Shows(rows, cols, PointDrawn(cols, data, |data|, x, y), Ink(rows, cols, [Point(x, y)]))
      <==> OnImage(rows, cols, x, y)
  {
    var after := PointDrawn(cols, data, |data|, x, y);
    if OnImage(rows, cols, x, y) {
      PointDraws(rows, cols, data, {}, |data|, x, y);
      InkOfOne(rows, cols, Point(x, y));
      assert Ink(rows, cols, [Point(x, y)]) == {(x, y)};
    } else {
      assert Ink(rows, cols, [Point(x, y)]) == {};
      var at := Seek(|data|, Offset(cols, x, y));
      if at < |data| {
        var a, b := OffsetOf(rows, cols, at);
        assert after[at] == FG_CHAR;
      } else {
        assert |after| > |data|;
      }
    }
  }
}
