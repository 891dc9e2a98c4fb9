/** The level loader: level text is split into lines, the lines are read
    bottom to top as rows, and every letter of a row becomes the obstacle
    of its kind at the centre of its 64-point grid cell. An unknown letter
    ends the load with no obstacle set. */
module Level {
  import opened Wrappers
  import opened Geometry
  import opened Collision

  /** Side of one grid cell in scene points. */
  const CellSize: nat := 64

  /** One obstacle the loader asks the scene to create. */
  datatype Placement = Placement(kind: Kind, position: Point)

  /** What one letter of a level line stands for. */
  datatype Letter = Open | Tile(kind: Kind) | Unknown

  /** Why a level cannot be loaded; the game ends the process with
      `fatalError` in both cases. */
  datatype LoadError = LevelNotFound(name: string) | UnknownLetter(letter: char)

  /** The letter table of the level format. */
  function Classify(c: char): Letter {
    if c == 'x' then Tile(Wall)
    else if c == 'v' then Tile(Vortex)
    else if c == 's' then Tile(Star)
    else if c == 'f' then Tile(Finish)
    else if c == 't' then Tile(Teleport1)
    else if c == 'T' then Tile(Teleport2)
    else if c == ' ' then Open
    else Unknown
  }

  /** A letter the loader accepts: a tile letter or a space. */
  predicate Known(c: char) {
    Classify(c) != Unknown
  }

  /** The letter a level file uses for each obstacle kind. */
  function Symbol(k: Kind): (c: char)
    ensures Classify(c) == Tile(k)
  {
    match k
    case Wall => 'x'
    case Vortex => 'v'
    case Star => 's'
    case Finish => 'f'
    case Teleport1 => 't'
    case Teleport2 => 'T'
  }

  /** Exactly seven letters are known: the space, which is open floor, and
      the six tile letters. */
  lemma KnownLetters(c: char)
    ensures Classify(c) == Open <==> c == ' '
    ensures Known(c) <==> c in " xvsftT"
  {
  }

  /** A tile letter is the letter of the kind it stands for. */
  lemma LetterOfTile(c: char)
    requires Classify(c).Tile?
    ensures Symbol(Classify(c).kind) == c
  {
  }

  /** Centre of the grid cell at `column` and `row`, row 0 at the bottom. */
  function CellCenter(column: nat, row: nat): Point {
    Point((CellSize * column + CellSize / 2) as real, (CellSize * row + CellSize / 2) as real)
  }

  /** Each centre lies strictly inside its own cell, so no two cells share
      a centre. */
  lemma CellCenterInCell(column: nat, row: nat, column': nat, row': nat)
    ensures (CellSize * column) as real < CellCenter(column, row).x < (CellSize * (column + 1)) as real
    ensures (CellSize * row) as real < CellCenter(column, row).y < (CellSize * (row + 1)) as real
    ensures CellCenter(column, row) == CellCenter(column', row') <==> column == column' && row == row'
  {
  }

  /** `components(separatedBy: "\n")`: the pieces of `s` between newlines;
      there is always at least one, and none contains a newline. */
  function Split(s: string): (lines: seq<string>)
    ensures |lines| >= 1
    ensures forall i :: 0 <= i < |lines| ==> '\n' !in lines[i]
    decreases |s|
  {
    if s == [] then [""]
    else
      var rest := Split(s[1..]);
      if s[0] == '\n' then [""] + rest
      else [[s[0]] + rest[0]] + rest[1..]
  }

  /** The pieces put back together with a newline between each two. */
  function Join(lines: seq<string>): string
    requires |lines| >= 1
    decreases |lines|
  {
    if |lines| == 1 then lines[0] else lines[0] + "\n" + Join(lines[1..])
  }

  /** `reversed()`: the last line becomes the first row. */
  function Reversed<T>(s: seq<T>): (r: seq<T>)
    ensures |r| == |s|
    ensures forall i :: 0 <= i < |r| ==> r[i] == s[|s| - 1 - i]
  {
    if s == [] then [] else Reversed(s[1..]) + [s[0]]
  }

  /** Placements followed by the result of the rest of the walk; the first
      unknown letter met wins. */
  function Concat(a: Result<seq<Placement>, char>, b: Result<seq<Placement>, char>): Result<seq<Placement>, char> {
    match a
    case Err(c) => Err(c)
    case Ok(ps) =>
      match b
      case Err(c) => Err(c)
      case Ok(qs) => Ok(ps + qs)
  }

  lemma ConcatEmpty(a: Result<seq<Placement>, char>)
    ensures Concat(Ok([]), a) == a
  {
    if a.Ok? {
      assert [] + a.value == a.value;
    }
  }

  lemma ConcatAssociative(a: Result<seq<Placement>, char>, b: Result<seq<Placement>, char>, c: Result<seq<Placement>, char>)
    ensures Concat(Concat(a, b), c) == Concat(a, Concat(b, c))
  {
    if a.Ok? && b.Ok? && c.Ok? {
      assert a.value + b.value + c.value == a.value + (b.value + c.value);
    }
  }

  /** The placements of the letters `cells` of row `row`, the first of them
      in column `column`; fails with the first unknown letter. */
  function PlaceCells(cells: string, row: nat, column: nat): (r: Result<seq<Placement>, char>)
    ensures r.Err? ==> r.error in cells && !Known(r.error)
    decreases |cells|
  {
    if cells == [] then Ok([])
    else
      var rest := PlaceCells(cells[1..], row, column + 1);
      match Classify(cells[0])
      case Unknown => Err(cells[0])
      case Open => rest
      case Tile(k) => Concat(Ok([Placement(k, CellCenter(column, row))]), rest)
  }

  /** The placements of `rows`, the first of them being row `row`. */
  function PlaceRows(rows: seq<string>, row: nat): (r: Result<seq<Placement>, char>)
    ensures r.Err? ==> !Known(r.error)
    decreases |rows|
  {
    if rows == [] then Ok([])
    else Concat(PlaceCells(rows[0], row, 0), PlaceRows(rows[1..], row + 1))
  }

  /** The obstacle set of a level text, or the unknown letter that aborts it. */
  function Parse(text: string): (r: Result<seq<Placement>, LoadError>)
    ensures r.Err? ==> r.error.UnknownLetter? && !Known(r.error.letter)
  {
    match PlaceRows(Reversed(Split(text)), 0)
    case Ok(ps) => Ok(ps)
    case Err(c) => Err(UnknownLetter(c))
  }

  /** `loadLevel(levelFile:)` with the app bundle given as a map from level
      name to file contents. */
  function Load(bundle: map<string, string>, name: string): (r: Result<seq<Placement>, LoadError>)
    ensures r.Err? && r.error.LevelNotFound? <==> name !in bundle
    ensures r.Err? && r.error.LevelNotFound? ==> r.error.name == name
    ensures r.Err? && r.error.UnknownLetter? ==> !Known(r.error.letter)
  {
    if name in bundle then Parse(bundle[name]) else Err(LevelNotFound(name))
  }

  /** The loop of `loadLevel`: rows bottom to top, letters left to right,
      collecting one placement per tile letter and stopping at the first
      unknown letter. */
  method LoadPlacements(text: string) returns (r: Result<seq<Placement>, LoadError>)
    ensures r == Parse(text)
  {
    var lines := Split(text);
    var rows := Reversed(lines);
    var placed: seq<Placement> := [];
    var row := 0;
    ConcatEmpty(PlaceRows(rows, 0));
    while row < |rows|
      invariant 0 <= row <= |rows|
      invariant PlaceRows(rows, 0) == Concat(Ok(placed), PlaceRows(rows[row..], row))
    {
      var line := rows[row];
      assert rows[row..][1..] == rows[row + 1..];
      var column := 0;
      while column < |line|
        invariant 0 <= column <= |line|
        decreases |line| - column
        invariant PlaceRows(rows, 0) ==
          Concat(Ok(placed), Concat(PlaceCells(line[column..], row, column), PlaceRows(rows[row + 1..], row + 1)))
      {
        var letter := line[column];
        assert line[column..][1..] == line[column + 1..];
        var rest := PlaceCells(line[column + 1..], row, column + 1);
        var after := PlaceRows(rows[row + 1..], row + 1);
        match Classify(letter) {
          case Unknown =>
            assert PlaceCells(line[column..], row, column) == Err(letter);
            return Err(UnknownLetter(letter));
          case Open =>
          case Tile(k) =>
            var here := [Placement(k, CellCenter(column, row))];
            ConcatAssociative(Ok(placed), Ok(here), Concat(rest, after));
            ConcatAssociative(Ok(here), rest, after);
            placed := placed + here;
        }
        column := column + 1;
      }
      ConcatEmpty(PlaceRows(rows[row + 1..], row + 1));
      row := row + 1;
    }
    assert rows[row..] == [] && placed + [] == placed;
    r := Ok(placed);
  }
}
