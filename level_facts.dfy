/** What the level loader promises: it succeeds exactly when every letter
    is known, it places one obstacle per tile letter at the centre of that
    letter's cell (the last line being row 0), and nothing else. */
module LevelFacts {
  import opened Wrappers
  import opened Geometry
  import opened Collision
  import opened Level

  /** Number of tile letters in `s`. */
  function TileCount(s: string): nat
    decreases |s|
  {
    if s == [] then 0 else (if Classify(s[0]).Tile? then 1 else 0) + TileCount(s[1..])
  }

  /** Number of tile letters over all of `lines`. */
  function SumTiles(lines: seq<string>): nat
    decreases |lines|
  {
    if lines == [] then 0 else TileCount(lines[0]) + SumTiles(lines[1..])
  }

  // ---------------------------------------------------------------------
  // Splitting on newlines

  /** Joining the pieces gives back the text. */
  lemma {:induction false} JoinSplit(s: string)
    ensures Join(Split(s)) == s
    decreases |s|
  {
    if s != [] {
      var rest := Split(s[1..]);
      JoinSplit(s[1..]);
      if s[0] == '\n' {
        assert ([""] + rest)[1..] == rest;
      } else if |rest| > 1 {
        assert Split(s)[1..] == rest[1..];
        assert Join(Split(s)) == ([s[0]] + rest[0]) + "\n" + Join(rest[1..]);
        assert Join(rest) == rest[0] + "\n" + Join(rest[1..]);
        assert Join(Split(s)) == [s[0]] + Join(rest);
        assert s == [s[0]] + s[1..];
      } else {
        assert s == [s[0]] + s[1..];
      }
    }
  }

  /** A line with no newline in it, followed by anything, splits into that
      line glued to the first piece of the rest. */
  lemma {:induction false} SplitPrefix(a: string, t: string)
    requires '\n' !in a
    ensures Split(a + t) == [a + Split(t)[0]] + Split(t)[1..]
    decreases |a|
  {
    if a != [] {
      assert (a + t)[0] == a[0] && (a + t)[1..] == a[1..] + t;
      SplitPrefix(a[1..], t);
      var rest := Split(a[1..] + t);
      assert rest[0] == a[1..] + Split(t)[0] && rest[1..] == Split(t)[1..];
      assert [a[0]] + rest[0] == a + Split(t)[0];
    } else {
      assert a + t == t && a + Split(t)[0] == Split(t)[0];
      assert Split(t) == [Split(t)[0]] + Split(t)[1..];
    }
  }

  /** Splitting the joined lines gives back the lines, when none of them
      holds a newline. */
  lemma {:induction false} SplitJoin(lines: seq<string>)
    requires |lines| >= 1
    requires forall i :: 0 <= i < |lines| ==> '\n' !in lines[i]
    ensures Split(Join(lines)) == lines
    decreases |lines|
  {
    if |lines| == 1 {
      SplitPrefix(lines[0], "");
      assert lines[0] + "" == lines[0];
    } else {
      SplitJoin(lines[1..]);
      var t := "\n" + Join(lines[1..]);
      assert Join(lines) == lines[0] + t;
      SplitPrefix(lines[0], t);
      assert t[1..] == Join(lines[1..]);
      assert Split(t) == [""] + lines[1..];
      assert lines[0] + "" == lines[0];
      assert lines == [lines[0]] + lines[1..];
    }
  }

  /** Every letter of a piece comes from the text, and every letter of the
      text other than a newline lies in some piece. */
  lemma {:induction false} SplitLetters(s: string)
    ensures forall i, c :: 0 <= i < |Split(s)| && c in Split(s)[i] ==> c in s
    ensures forall c :: c in s && c != '\n' ==> exists i :: 0 <= i < |Split(s)| && c in Split(s)[i]
    decreases |s|
  {
    if s != [] {
      SplitLetters(s[1..]);
      var rest := Split(s[1..]);
      assert forall c :: c in s <==> c == s[0] || c in s[1..];
      if s[0] == '\n' {
        assert forall i :: 0 < i < |Split(s)| ==> Split(s)[i] == rest[i - 1];
        forall c | c in s && c != '\n'
          ensures exists i :: 0 <= i < |Split(s)| && c in Split(s)[i]
        {
          var j :| 0 <= j < |rest| && c in rest[j];
          assert c in Split(s)[j + 1];
        }
      } else {
        assert Split(s)[0] == [s[0]] + rest[0];
        assert forall i :: 0 < i < |Split(s)| ==> Split(s)[i] == rest[i];
        forall c | c in s && c != '\n'
          ensures exists i :: 0 <= i < |Split(s)| && c in Split(s)[i]
        {
          if c == s[0] {
            assert c in Split(s)[0];
          } else {
            var j :| 0 <= j < |rest| && c in rest[j];
            if j == 0 { assert c in Split(s)[0]; } else { assert c in Split(s)[j]; }
          }
        }
      }
    }
  }

  /** The tile letters of the text are those of its pieces. */
  lemma {:induction false} SplitTileCount(s: string)
    ensures SumTiles(Split(s)) == TileCount(s)
    decreases |s|
  {
    if s != [] {
      SplitTileCount(s[1..]);
      var rest := Split(s[1..]);
      if s[0] == '\n' {
        assert ([""] + rest)[1..] == rest;
      } else {
        var first := [s[0]] + rest[0];
        assert first[1..] == rest[0];
        if |rest| == 1 {
          assert Split(s) == [first];
        } else {
          assert Split(s)[1..] == rest[1..];
        }
      }
    }
  }

  lemma {:induction false} SumTilesAppend(a: seq<string>, b: seq<string>)
    ensures SumTiles(a + b) == SumTiles(a) + SumTiles(b)
    decreases |a|
  {
    if a != [] {
      assert (a + b)[1..] == a[1..] + b;
      SumTilesAppend(a[1..], b);
    } else {
      assert a + b == b;
    }
  }

  /** Reading the lines bottom to top does not change how many tiles they hold. */
  lemma {:induction false} SumTilesReversed(lines: seq<string>)
    ensures SumTiles(Reversed(lines)) == SumTiles(lines)
    decreases |lines|
  {
    if lines != [] {
      SumTilesReversed(lines[1..]);
      SumTilesAppend(Reversed(lines[1..]), [lines[0]]);
      assert [lines[0]][1..] == [];
    }
  }

  // ---------------------------------------------------------------------
  // All or nothing

  /** A row is placed exactly when all its letters are known; a failure
      names an unknown letter of the row. */
  lemma {:induction false} PlaceCellsOkIff(cells: string, row: nat, column: nat)
    ensures PlaceCells(cells, row, column).Ok? <==> forall c :: c in cells ==> Known(c)
    ensures PlaceCells(cells, row, column).Err? ==>
      PlaceCells(cells, row, column).error in cells && !Known(PlaceCells(cells, row, column).error)
    decreases |cells|
  {
    if cells != [] {
      var rest := PlaceCells(cells[1..], row, column + 1);
      PlaceCellsOkIff(cells[1..], row, column + 1);
      assert forall c :: c in cells <==> c == cells[0] || c in cells[1..];
      match Classify(cells[0])
      case Unknown =>
        assert cells[0] in cells && !Known(cells[0]);
      case Open =>
      case Tile(k) =>
        assert rest.Ok? ==> PlaceCells(cells, row, column).Ok?;
        assert rest.Err? ==> PlaceCells(cells, row, column) == rest;
    }
  }

  /** The rows are placed exactly when all their letters are known; a
      failure names an unknown letter of some row. */
  lemma {:induction false} PlaceRowsOkIff(rows: seq<string>, row: nat)
    ensures PlaceRows(rows, row).Ok? <==> forall i, c :: 0 <= i < |rows| && c in rows[i] ==> Known(c)
    ensures PlaceRows(rows, row).Err? ==>
      !Known(PlaceRows(rows, row).error) &&
      exists i :: 0 <= i < |rows| && PlaceRows(rows, row).error in rows[i]
    decreases |rows|
  {
    if rows != [] {
      PlaceCellsOkIff(rows[0], row, 0);
      PlaceRowsOkIff(rows[1..], row + 1);
      assert forall i :: 0 < i < |rows| ==> rows[i] == rows[1..][i - 1];
      if PlaceCells(rows[0], row, 0).Ok? && PlaceRows(rows[1..], row + 1).Err? {
        var j :| 0 <= j < |rows[1..]| && PlaceRows(rows[1..], row + 1).error in rows[1..][j];
        assert PlaceRows(rows, row).error in rows[j + 1];
      }
    }
  }

  /** Loading succeeds exactly when every letter of the text is a newline,
      a space or one of `x v s f t T`; otherwise it fails as a whole, naming
      a letter of the text outside that alphabet. */
  lemma ParseAllOrNothing(text: string)
    ensures Parse(text).Ok? <==> forall c :: c in text ==> c == '\n' || Known(c)
    ensures Parse(text).Err? ==>
      Parse(text).error.UnknownLetter? &&
      Parse(text).error.letter in text && Parse(text).error.letter != '\n' && !Known(Parse(text).error.letter)
  {
    var lines := Split(text);
    var rows := Reversed(lines);
    SplitLetters(text);
    PlaceRowsOkIff(rows, 0);
    assert forall i :: 0 <= i < |rows| ==> rows[i] == lines[|lines| - 1 - i];
    if forall c :: c in text ==> c == '\n' || Known(c) {
      forall i, c | 0 <= i < |rows| && c in rows[i] ensures Known(c) {
        assert c in lines[|lines| - 1 - i];
      }
    } else {
      var c :| c in text && c != '\n' && !Known(c);
      var i :| 0 <= i < |lines| && c in lines[i];
      assert c in rows[|lines| - 1 - i];
    }
    if PlaceRows(rows, 0).Err? {
      var i :| 0 <= i < |rows| && PlaceRows(rows, 0).error in rows[i];
      assert PlaceRows(rows, 0).error in lines[|lines| - 1 - i];
    }
  }

  // ---------------------------------------------------------------------
  // Where the obstacles go

  /** A placed row holds one placement per tile letter, at the centre of
      that letter's cell, and nothing else. */
  lemma {:induction false} PlaceCellsExact(cells: string, row: nat, column: nat)
    requires PlaceCells(cells, row, column).Ok?
    ensures |PlaceCells(cells, row, column).value| == TileCount(cells)
    ensures forall k :: 0 <= k < |cells| && Classify(cells[k]).Tile? ==>
      Placement(Classify(cells[k]).kind, CellCenter(column + k, row)) in PlaceCells(cells, row, column).value
    ensures forall p :: p in PlaceCells(cells, row, column).value ==>
      exists k :: 0 <= k < |cells| && Classify(cells[k]) == Tile(p.kind) && p.position == CellCenter(column + k, row)
    decreases |cells|
  {
    if cells != [] {
      var rest := PlaceCells(cells[1..], row, column + 1);
      PlaceCellsExact(cells[1..], row, column + 1);
      var ps := PlaceCells(cells, row, column).value;
      assert forall k :: 0 < k < |cells| ==> cells[k] == cells[1..][k - 1];
      forall k | 0 < k < |cells| && Classify(cells[k]).Tile?
        ensures Placement(Classify(cells[k]).kind, CellCenter(column + k, row)) in ps
      {
        assert Placement(Classify(cells[1..][k - 1]).kind, CellCenter(column + 1 + (k - 1), row)) in rest.value;
      }
      forall p | p in ps
        ensures exists k :: 0 <= k < |cells| && Classify(cells[k]) == Tile(p.kind) && p.position == CellCenter(column + k, row)
      {
        if p in rest.value {
          var j :| 0 <= j < |cells[1..]| && Classify(cells[1..][j]) == Tile(p.kind) && p.position == CellCenter(column + 1 + j, row);
          assert Classify(cells[j + 1]) == Tile(p.kind) && p.position == CellCenter(column + (j + 1), row);
        } else {
          assert Classify(cells[0]) == Tile(p.kind) && p.position == CellCenter(column + 0, row);
        }
      }
    }
  }

  /** Placed rows hold one placement per tile letter, at the centre of that
      letter's cell counted from the first row `row`, and nothing else. */
  lemma {:induction false} PlaceRowsExact(rows: seq<string>, row: nat)
    requires PlaceRows(rows, row).Ok?
    ensures |PlaceRows(rows, row).value| == SumTiles(rows)
    ensures forall i, k :: 0 <= i < |rows| && 0 <= k < |rows[i]| && Classify(rows[i][k]).Tile? ==>
      Placement(Classify(rows[i][k]).kind, CellCenter(k, row + i)) in PlaceRows(rows, row).value
    ensures forall p :: p in PlaceRows(rows, row).value ==>
      exists i, k :: (0 <= i < |rows| && 0 <= k < |rows[i]| &&
                      Classify(rows[i][k]) == Tile(p.kind) && p.position == CellCenter(k, row + i))
    decreases |rows|
  {
    if rows != [] {
      PlaceCellsExact(rows[0], row, 0);
      PlaceRowsExact(rows[1..], row + 1);
      var first := PlaceCells(rows[0], row, 0).value;
      var rest := PlaceRows(rows[1..], row + 1).value;
      var ps := PlaceRows(rows, row).value;
      assert ps == first + rest;
      assert forall i :: 0 < i < |rows| ==> rows[i] == rows[1..][i - 1];
      forall i, k | 0 <= i < |rows| && 0 <= k < |rows[i]| && Classify(rows[i][k]).Tile?
        ensures Placement(Classify(rows[i][k]).kind, CellCenter(k, row + i)) in ps
      {
        if i == 0 {
          assert Placement(Classify(rows[0][k]).kind, CellCenter(0 + k, row)) in first;
        } else {
          assert Placement(Classify(rows[1..][i - 1][k]).kind, CellCenter(k, row + 1 + (i - 1))) in rest;
        }
      }
      forall p | p in ps
        ensures exists i, k :: (0 <= i < |rows| && 0 <= k < |rows[i]| &&
                                Classify(rows[i][k]) == Tile(p.kind) && p.position == CellCenter(k, row + i))
      {
        if p in first {
          var k :| 0 <= k < |rows[0]| && Classify(rows[0][k]) == Tile(p.kind) && p.position == CellCenter(0 + k, row);
          assert p.position == CellCenter(k, row + 0);
        } else {
          var i, k :| 0 <= i < |rows[1..]| && 0 <= k < |rows[1..][i]| &&
            Classify(rows[1..][i][k]) == Tile(p.kind) && p.position == CellCenter(k, row + 1 + i);
          assert rows[i + 1] == rows[1..][i];
          assert p.position == CellCenter(k, row + (i + 1));
        }
      }
    }
  }

  /** The letter in column `c` of the `i`-th of the `n` lines of a level,
      when it is a tile letter, puts an obstacle of its kind at
      (64c + 32, 64(n - 1 - i) + 32): the last line is row 0. */
  lemma ParsePlacesEveryTile(text: string, i: nat, c: nat)
    requires Parse(text).Ok?
    requires i < |Split(text)| && c < |Split(text)[i]| && Classify(Split(text)[i][c]).Tile?
    ensures Placement(Classify(Split(text)[i][c]).kind, CellCenter(c, |Split(text)| - 1 - i)) in Parse(text).value
    ensures CellCenter(c, |Split(text)| - 1 - i) == Point((64 * c + 32) as real, (64 * (|Split(text)| - 1 - i) + 32) as real)
  {
    var lines := Split(text);
    var rows := Reversed(lines);
    var r := |lines| - 1 - i;
    assert rows[r] == lines[i];
    PlaceRowsHasTile(rows, r, c);
  }

  /** The single-cell instance of `PlaceRowsExact` from row 0. */
  lemma PlaceRowsHasTile(rows: seq<string>, i: nat, k: nat)
    requires PlaceRows(rows, 0).Ok? && i < |rows| && k < |rows[i]| && Classify(rows[i][k]).Tile?
    ensures Placement(Classify(rows[i][k]).kind, CellCenter(k, i)) in PlaceRows(rows, 0).value
  {
    PlaceRowsExact(rows, 0);
    assert 0 + i == i;
  }

  /** Every obstacle of a loaded level comes from a tile letter of its kind,
      at the centre of that letter's cell. */
  lemma ParsePlacesOnlyTiles(text: string, p: Placement)
    requires Parse(text).Ok? && p in Parse(text).value
    ensures exists i, c :: (0 <= i < |Split(text)| && 0 <= c < |Split(text)[i]| &&
                            Classify(Split(text)[i][c]) == Tile(p.kind) && p.position == CellCenter(c, |Split(text)| - 1 - i))
  {
    var lines := Split(text);
    var rows := Reversed(lines);
    PlaceRowsExact(rows, 0);
    var r, c :| 0 <= r < |rows| && 0 <= c < |rows[r]| &&
      Classify(rows[r][c]) == Tile(p.kind) && p.position == CellCenter(c, 0 + r);
    var i := |lines| - 1 - r;
    assert rows[r] == lines[i];
    assert p.position == CellCenter(c, |lines| - 1 - i);
  }

  /** A loaded level has exactly one obstacle per tile letter of its text. */
  lemma ParseCount(text: string)
    requires Parse(text).Ok?
    ensures |Parse(text).value| == TileCount(text)
  {
    PlaceRowsExact(Reversed(Split(text)), 0);
    SumTilesReversed(Split(text));
    SplitTileCount(text);
  }

  // ---------------------------------------------------------------------
  // A trailing newline

  /** Every placement moved up by one cell. */
  function RaiseOneRow(ps: seq<Placement>): seq<Placement> {
    seq(|ps|, i requires 0 <= i < |ps| =>
      Placement(ps[i].kind, Point(ps[i].position.x, ps[i].position.y + CellSize as real)))
  }

  function Raised<E>(r: Result<seq<Placement>, E>): Result<seq<Placement>, E> {
    match r
    case Ok(ps) => Ok(RaiseOneRow(ps))
    case Err(e) => Err(e)
  }

  /** A text ending in a newline splits into one more, empty, piece. */
  lemma {:induction false} SplitTrailingNewline(s: string)
    ensures Split(s + "\n") == Split(s) + [""]
    decreases |s|
  {
    if s == [] {
      assert s + "\n" == "\n" && ("\n")[1..] == [];
    } else {
      assert (s + "\n")[0] == s[0] && (s + "\n")[1..] == s[1..] + "\n";
      SplitTrailingNewline(s[1..]);
      var rest := Split(s[1..]);
      if s[0] != '\n' {
        assert (rest + [""])[0] == rest[0] && (rest + [""])[1..] == rest[1..] + [""];
      }
    }
  }

  lemma ReversedAppend(s: seq<string>, x: string)
    ensures Reversed(s + [x]) == [x] + Reversed(s)
  {
    assert forall i :: 0 <= i < |s| + 1 ==> Reversed(s + [x])[i] == ([x] + Reversed(s))[i];
  }

  lemma RaiseConcat(a: Result<seq<Placement>, char>, b: Result<seq<Placement>, char>)
    ensures Raised(Concat(a, b)) == Concat(Raised(a), Raised(b))
  {
    if a.Ok? && b.Ok? {
      assert RaiseOneRow(a.value + b.value) == RaiseOneRow(a.value) + RaiseOneRow(b.value);
    }
  }

  lemma {:induction false} PlaceCellsRaised(cells: string, row: nat, column: nat)
    ensures PlaceCells(cells, row + 1, column) == Raised(PlaceCells(cells, row, column))
    decreases |cells|
  {
    if cells != [] {
      PlaceCellsRaised(cells[1..], row, column + 1);
      var rest := PlaceCells(cells[1..], row, column + 1);
      match Classify(cells[0])
      case Unknown =>
      case Open =>
      case Tile(k) =>
        var here := [Placement(k, CellCenter(column, row))];
        assert RaiseOneRow(here) == [Placement(k, CellCenter(column, row + 1))];
        RaiseConcat(Ok(here), rest);
    } else {
      assert RaiseOneRow([]) == [];
    }
  }

  lemma {:induction false} PlaceRowsRaised(rows: seq<string>, row: nat)
    ensures PlaceRows(rows, row + 1) == Raised(PlaceRows(rows, row))
    decreases |rows|
  {
    if rows != [] {
      PlaceCellsRaised(rows[0], row, 0);
      PlaceRowsRaised(rows[1..], row + 1);
      RaiseConcat(PlaceCells(rows[0], row, 0), PlaceRows(rows[1..], row + 1));
    } else {
      assert RaiseOneRow([]) == [];
    }
  }

  /** A level text ending in a newline has an empty row 0: its obstacles are
      those of the text without that newline, each one cell higher. */
  lemma TrailingNewlineAddsEmptyRow(text: string)
    ensures Split(text + "\n") == Split(text) + [""]
    ensures Parse(text + "\n") == Raised(Parse(text))
  {
    SplitTrailingNewline(text);
    var rows := Reversed(Split(text));
    ReversedAppend(Split(text), "");
    assert ([""] + rows)[1..] == rows;
    assert PlaceCells("", 0, 0) == Ok([]);
    ConcatEmpty(PlaceRows(rows, 1));
    assert PlaceRows([""] + rows, 0) == PlaceRows(rows, 1);
    PlaceRowsRaised(rows, 0);
  }
}
