/** The tile map of `LoadLevel`, shared by its two copies (the game's and the
    level loader's): the map file's lines are split at commas and converted
    with `stoi`, and each value becomes a tile entity. The file itself is not
    modelled: its lines, as `getline` returns them, are the input. */
module TileMap {
  import opened Optional
  import opened Components
  import opened Scene

  const INT_MIN: int := -0x8000_0000
  const INT_MAX: int := 0x7FFF_FFFF

  const TILE_SET_WIDTH: int := 10
  const TILE_SIZE: int := 32
  const TILE_SCALE: int := 2

  // ---------------------------------------------------------------------
  // `getline(ss, tile, ',')`

  /** The position of the first comma, or the length when there is none. */
  function FirstComma(s: string): (k: nat)
    ensures k <= |s|
    ensures k < |s| ==> s[k] == ','
    ensures forall i | 0 <= i < k :: s[i] != ','
  {
    if s == [] || s[0] == ',' then 0 else 1 + FirstComma(s[1..])
  }

  /** What is left of the line after one `getline` that found a field:
      everything after the comma that ended the field, if any. */
  function AfterField(s: string): (r: string)
    requires s != []
    ensures |r| < |s|
  {
    var k := FirstComma(s);
    if k < |s| then s[k + 1..] else []
  }

  /** The fields the `getline` loop reads from a line. A call fails only at the
      end of the line with nothing read, so a trailing empty field (after a
      final comma) is not read, and an empty line has no fields. */
  function Fields(s: string): (r: seq<string>)
    ensures forall f | f in r :: ',' !in f
    decreases |s|
  {
    if s == [] then [] else [s[..FirstComma(s)]] + Fields(AfterField(s))
  }

  /** The fields written back with commas between them. */
  function Join(fields: seq<string>): string
  {
    if fields == [] then []
    else if |fields| == 1 then fields[0]
    else fields[0] + "," + Join(fields[1..])
  }

  lemma {:induction false} FirstCommaOfJoin(f: string, rest: string)
    requires ',' !in f
    ensures FirstComma(f + "," + rest) == |f|
    ensures FirstComma(f) == |f|
    decreases |f|
  {
    if f != [] {
      assert (f + "," + rest)[1..] == f[1..] + "," + rest;
      FirstCommaOfJoin(f[1..], rest);
    }
  }

  lemma FieldsStep(s: string)
    requires s != []
    ensures Fields(s) == [s[..FirstComma(s)]] + Fields(AfterField(s))
  {
  }

  /** Splitting undoes joining, for fields without commas of which the last
      is not empty. */
  lemma {:induction false} FieldsOfJoin(fields: seq<string>)
    requires forall f | f in fields :: ',' !in f
    requires fields != [] ==> fields[|fields| - 1] != []
    ensures Fields(Join(fields)) == fields
    decreases |fields|
  {
    if |fields| == 1 {
      var f := fields[0];
      FirstCommaOfJoin(f, "");
      assert f[..|f|] == f;
    } else if |fields| > 1 {
      var f := fields[0];
      var rest := Join(fields[1..]);
      var s := f + "," + rest;
      FirstCommaOfJoin(f, rest);
      assert s[..|f|] == f;
      assert AfterField(s) == rest;
      FieldsOfJoin(fields[1..]);
      assert fields == [f] + fields[1..];
    }
  }

  // ---------------------------------------------------------------------
  // `std::stoi`

  predicate IsSpace(c: char)
  {
    c == ' ' || c == '\t' || c == '\n' || c == '\U{000B}' || c == '\U{000C}' || c == '\r'
  }

  predicate IsDigit(c: char)
  {
    '0' <= c <= '9'
  }

  predicate AllDigits(s: string)
  {
    forall i | 0 <= i < |s| :: IsDigit(s[i])
  }

  /** The line without its leading white space. */
  function SkipSpaces(s: string): string
  {
    if s != [] && IsSpace(s[0]) then SkipSpaces(s[1..]) else s
  }

  lemma {:induction false} SkipSpacesSuffix(s: string)
    ensures var r := SkipSpaces(s); |r| <= |s| && r == s[|s| - |r|..]
    decreases |s|
  {
    if s != [] && IsSpace(s[0]) {
      SkipSpacesSuffix(s[1..]);
    }
  }

  /** The longest prefix made of decimal digits. */
  function LeadingDigits(s: string): (r: string)
    ensures AllDigits(r)
  {
    if s != [] && IsDigit(s[0]) then [s[0]] + LeadingDigits(s[1..]) else []
  }

  lemma {:induction false} LeadingDigitsPrefix(s: string)
    ensures var r := LeadingDigits(s);
            && |r| <= |s| && r == s[..|r|]
            && (|r| < |s| ==> !IsDigit(s[|r|]))
    decreases |s|
  {
    if s != [] && IsDigit(s[0]) {
      LeadingDigitsPrefix(s[1..]);
    }
  }

  /** The value of a string of decimal digits, most significant first. */
  function DigitsValue(ds: string): nat
    requires AllDigits(ds)
  {
    if ds == [] then 0
    else DigitsValue(ds[..|ds| - 1]) * 10 + (ds[|ds| - 1] as int - '0' as int)
  }

  /** `stoi(s)` in base 10: leading white space is skipped, one sign is
      allowed, at least one digit must follow, and whatever follows the
      digits is ignored. `None` stands for the exceptions it throws:
      `invalid_argument` when there is no digit, `out_of_range` when the value
      does not fit in an `int`. */
  function Stoi(s: string): (r: Option<int>)
    ensures r.Some? ==> INT_MIN <= r.value <= INT_MAX
  {
    var t := SkipSpaces(s);
    var signed := t != [] && (t[0] == '-' || t[0] == '+');
    var unsigned := if signed then t[1..] else t;
    var ds := LeadingDigits(unsigned);
    if ds == [] then None
    else
      var magnitude: int := DigitsValue(ds);
      var v: int := if signed && t[0] == '-' then -magnitude else magnitude;
      if INT_MIN <= v <= INT_MAX then Some(v) else None
  }

  /** The decimal digits of a natural number, without leading zeros. */
  function NatDigits(n: nat): (r: string)
    ensures r != [] && AllDigits(r)
    decreases n
  {
    var d := [('0' as int + n % 10) as char];
    if n < 10 then d else NatDigits(n / 10) + d
  }

  /** The digits of `n` have the value `n`. */
  lemma {:induction false} NatDigitsValue(n: nat)
    ensures DigitsValue(NatDigits(n)) == n
    decreases n
  {
    if n >= 10 {
      NatDigitsValue(n / 10);
      var r := NatDigits(n);
      assert r[..|r| - 1] == NatDigits(n / 10);
    }
  }

  /** `to_string(n)`. */
  function Decimal(n: int): (r: string)
    ensures r != [] && r[|r| - 1] != ','
    ensures ',' !in r
  {
    if n < 0 then "-" + NatDigits(-n) else NatDigits(n)
  }

  lemma {:induction false} LeadingDigitsOfDigits(ds: string)
    requires AllDigits(ds)
    ensures LeadingDigits(ds) == ds
    decreases |ds|
  {
    if ds != [] {
      LeadingDigitsOfDigits(ds[1..]);
    }
  }

  /** `stoi` reads back every `int` written in decimal. */
  lemma StoiOfDecimal(n: int)
    requires INT_MIN <= n <= INT_MAX
    ensures Stoi(Decimal(n)) == Some(n)
  {
    var digits := NatDigits(if n < 0 then -n else n);
    var s := Decimal(n);
    LeadingDigitsOfDigits(digits);
    NatDigitsValue(if n < 0 then -n else n);
    assert SkipSpaces(s) == s by {
      assert !IsSpace(s[0]);
    }
    if n < 0 {
      assert s[1..] == digits;
    } else {
      assert s[0] != '-' && s[0] != '+';
    }
  }

  /** `stoi` rejects a field without any digit, such as the empty field. */
  lemma StoiNeedsADigit(s: string)
    requires forall i | 0 <= i < |s| :: !IsDigit(s[i])
    ensures Stoi(s) == None
  {
    var t := SkipSpaces(s);
    SkipSpacesSuffix(s);
    var unsigned := if t != [] && (t[0] == '-' || t[0] == '+') then t[1..] else t;
    assert unsigned == s[|s| - |unsigned|..];
    if unsigned != [] {
      assert unsigned[0] == s[|s| - |unsigned|];
    }
  }

  // ---------------------------------------------------------------------
  // The `getline` loops

  /** The values of the fields, converted left to right; `None` as soon as
      one does not convert. */
  function Converted(fields: seq<string>): Option<seq<int>>
    decreases |fields|
  {
    if fields == [] then Some([])
    else
      match Stoi(fields[0])
      case None => None
      case Some(v) =>
        match Converted(fields[1..])
        case None => None
        case Some(vs) => Some([v] + vs)
  }

  /** The fields convert exactly when each one does, and then the values are
      theirs, in field order. */
  lemma {:induction false} ConvertedMeaning(fields: seq<string>)
    ensures Converted(fields).Some? <==> forall k | 0 <= k < |fields| :: Stoi(fields[k]).Some?
    ensures Converted(fields).Some? ==>
              |Converted(fields).value| == |fields| &&
              forall k | 0 <= k < |fields| :: Some(Converted(fields).value[k]) == Stoi(fields[k])
    decreases |fields|
  {
    if fields != [] {
      ConvertedMeaning(fields[1..]);
      if Stoi(fields[0]).Some? && Converted(fields[1..]).Some? {
        var vs := Converted(fields[1..]).value;
        forall k | 0 <= k < |fields|
          ensures Some(Converted(fields).value[k]) == Stoi(fields[k])
        {
          if k > 0 {
            assert Converted(fields).value[k] == vs[k - 1];
            assert fields[k] == fields[1..][k - 1];
          }
        }
      } else if Stoi(fields[0]).Some? {
        var k :| 0 <= k < |fields[1..]| && Stoi(fields[1..][k]).None?;
        assert Stoi(fields[k + 1]).None?;
      }
    }
  }

  /** The row a line gives: every field of it converted by `stoi`. */
  function RowOf(line: string): Option<seq<int>>
  {
    Converted(Fields(line))
  }

  /** Values already pushed, before what the rest of the line gives. */
  function Then(values: seq<int>, rest: Option<seq<int>>): Option<seq<int>>
  {
    if rest.None? then None else Some(values + rest.value)
  }

  /** The values written in decimal, one field each. */
  function Decimals(values: seq<int>): (r: seq<string>)
    ensures |r| == |values|
    ensures forall k | 0 <= k < |values| :: r[k] == Decimal(values[k])
  {
    if values == [] then [] else [Decimal(values[0])] + Decimals(values[1..])
  }

  /** Converting a field ahead of others. */
  lemma ConvertedCons(f: string, rest: seq<string>, v: int)
    requires Stoi(f) == Some(v)
    ensures Converted([f] + rest) == Then([v], Converted(rest))
  {
    assert ([f] + rest)[1..] == rest;
  }

  lemma {:induction false} ConvertedDecimals(values: seq<int>)
    requires forall k | 0 <= k < |values| :: INT_MIN <= values[k] <= INT_MAX
    ensures Converted(Decimals(values)) == Some(values)
  {
    if values != [] {
      var v := values[0];
      StoiOfDecimal(v);
      ConvertedCons(Decimal(v), Decimals(values[1..]), v);
      ConvertedDecimals(values[1..]);
      assert [v] + values[1..] == values;
    }
  }

  /** A line of `int`s written in decimal with commas between them reads back
      as those values. */
  lemma RowOfJoin(values: seq<int>)
    requires forall k | 0 <= k < |values| :: INT_MIN <= values[k] <= INT_MAX
    ensures RowOf(Join(Decimals(values))) == Some(values)
  {
    FieldsOfJoin(Decimals(values));
    ConvertedDecimals(values);
  }

  /** A line with a field `stoi` rejects gives no row. */
  lemma RowOfRejects(line: string, k: nat)
    requires k < |Fields(line)| && Stoi(Fields(line)[k]).None?
    ensures RowOf(line).None?
  {
    ConvertedMeaning(Fields(line));
  }

  /** One more `getline` call reads the next field and converts it. */
  lemma ReadField(line: string, values: seq<int>, rest: string)
    requires rest != [] && Converted(Fields(line)) == Then(values, Converted(Fields(rest)))
    ensures var tile := rest[..FirstComma(rest)];
            && (Stoi(tile).None? ==> Converted(Fields(line)).None?)
            && (Stoi(tile).Some? ==>
                  Converted(Fields(line)) == Then(values + [Stoi(tile).value], Converted(Fields(AfterField(rest)))))
  {
    FieldsStep(rest);
    var fields := Fields(rest);
    assert fields[1..] == Fields(AfterField(rest));
    var tile := rest[..FirstComma(rest)];
    if Stoi(tile).Some? {
      var next := Converted(Fields(AfterField(rest)));
      if next.Some? {
        assert values + ([Stoi(tile).value] + next.value) == values + [Stoi(tile).value] + next.value;
      }
    }
  }

  /** The inner loop: `getline` up to the next comma, `stoi`, `push_back`.
      A field that does not convert throws, which ends the load: `None`. */
  method ParseRow(line: string) returns (row: Option<seq<int>>)
    ensures row == RowOf(line)
  {
    var rest := line;
    var values: seq<int> := [];
    assert Then([], Converted(Fields(line))) == Converted(Fields(line)) by {
      if Converted(Fields(line)).Some? {
        assert [] + Converted(Fields(line)).value == Converted(Fields(line)).value;
      }
    }
    while rest != []
      invariant Converted(Fields(line)) == Then(values, Converted(Fields(rest)))
      decreases |rest|
    {
      var tile := rest[..FirstComma(rest)];
      ReadField(line, values, rest);
      rest := AfterField(rest);
      var value := Stoi(tile);
      if value.None? {
        return None;
      }
      values := values + [value.value];
    }
    assert values + [] == values;
    return Some(values);
  }

  /** Every line of the file gives a row. */
  predicate MapParses(lines: seq<string>)
  {
    forall i | 0 <= i < |lines| :: RowOf(lines[i]).Some?
  }

  /** The outer loop: one row per line, in file order. */
  method ParseTileMap(lines: seq<string>) returns (tileMap: Option<seq<seq<int>>>)
    ensures tileMap.Some? <==> MapParses(lines)
    ensures tileMap.Some? ==>
              |tileMap.value| == |lines| &&
              forall i | 0 <= i < |lines| :: Some(tileMap.value[i]) == RowOf(lines[i])
  {
    var rows: seq<seq<int>> := [];
    var i := 0;
    while i < |lines|
      invariant 0 <= i <= |lines|
      invariant |rows| == i
      invariant forall i' | 0 <= i' < i :: Some(rows[i']) == RowOf(lines[i'])
    {
      var row := ParseRow(lines[i]);
      if row.None? {
        return None;
      }
      rows := rows + [row.value];
      i := i + 1;
    }
    return Some(rows);
  }

  /** The map the lines give, when they all convert. */
  function ParsedMap(lines: seq<string>): (m: seq<seq<int>>)
    requires MapParses(lines)
    ensures |m| == |lines|
    ensures forall i | 0 <= i < |lines| :: Some(m[i]) == RowOf(lines[i])
  {
    seq(|lines|, i requires 0 <= i < |lines| => RowOf(lines[i]).value)
  }

  // ---------------------------------------------------------------------
  // Tile decoding

  /** C++ `/` on `int`: the quotient is truncated toward zero, so the
      remainder `a - b * q` has the sign of `a` and is smaller than `b` in
      magnitude, and the quotient has the sign of `a`. */
  function TruncDiv(a: int, b: int): (q: int)
    requires b > 0
    ensures a >= 0 ==> 0 <= a - b * q < b && q >= 0
    ensures a < 0 ==> -b < a - b * q <= 0 && q <= 0
  {
    if a >= 0 then a / b else -((-a) / b)
  }

  /** `floor(v / tileSetWidth)`: the `int` quotient, already truncated, is
      converted to a double and back, which changes nothing. */
  function TileSetRow(v: int): int
  {
    TruncDiv(v, TILE_SET_WIDTH)
  }

  function TileSetColumn(v: int): int
  {
    v - TileSetRow(v) * TILE_SET_WIDTH
  }

  /** A value is its tileset row times ten plus its column; for a
      non-negative value these are the quotient and the remainder by ten.
      A negative value gives a column between -9 and 0. */
  lemma TileDecode(v: int)
    ensures v == TILE_SET_WIDTH * TileSetRow(v) + TileSetColumn(v)
    ensures v >= 0 ==> TileSetRow(v) == v / 10 && TileSetColumn(v) == v % 10
    ensures v >= 0 ==> 0 <= TileSetColumn(v) < 10
    ensures v < 0 ==> -10 < TileSetColumn(v) <= 0
  {
  }

  /** The entity created for the tile at row i, column j with value v. */
  function TileEntity(i: int, j: int, v: int, zIndex: int): (t: Created)
  {
    Created(Some("tiles"),
            [TransformC(NewTransform(Vec2((j * TILE_SIZE * TILE_SCALE) as real, (i * TILE_SIZE * TILE_SCALE) as real),
                                     Vec2(TILE_SCALE as real, TILE_SCALE as real))),
             SpriteC(NewSprite("tileset", TILE_SIZE, TILE_SIZE, zIndex, false,
                               TILE_SIZE * TileSetColumn(v), TILE_SIZE * TileSetRow(v)))])
  }

  /** A tile is in the "tiles" group; it sits 64 pixels per row and column
      from the origin, scaled twice, and its unflipped 32-pixel sprite shows
      the tileset cell of its value. */
  lemma TilePlacement(i: int, j: int, v: int, zIndex: int)
    requires v >= 0
    ensures var t := TileEntity(i, j, v, zIndex);
            && t.group == Some("tiles")
            && t.components == [
                 TransformC(Transform(Vec2((j * 64) as real, (i * 64) as real), Vec2(2.0, 2.0), 0.0)),
                 SpriteC(Sprite("tileset", 32, 32, zIndex, FlipNone, false,
                                Rect(32 * (v % 10), 32 * (v / 10), 32, 32), "Right"))]
  {
    TileDecode(v);
  }

  /** The number of tiles in the rows before row i. */
  function Offset(m: seq<seq<int>>, i: nat): (n: nat)
    requires i <= |m|
  {
    if i == 0 then 0 else Offset(m, i - 1) + |m[i - 1]|
  }

  lemma {:induction false} OffsetGrows(m: seq<seq<int>>, i: nat, k: nat)
    requires i < k <= |m|
    ensures Offset(m, i) + |m[i]| <= Offset(m, k)
    decreases k - i
  {
    if i + 1 < k {
      OffsetGrows(m, i + 1, k);
    }
  }

  /** The first j tiles of row i, left to right. */
  function RowTiles(i: int, row: seq<int>, j: nat, zIndex: int): (r: seq<Created>)
    requires j <= |row|
    ensures |r| == j
    ensures forall j' | 0 <= j' < j :: r[j'] == TileEntity(i, j', row[j'], zIndex)
  {
    if j == 0 then [] else RowTiles(i, row, j - 1, zIndex) + [TileEntity(i, j - 1, row[j - 1], zIndex)]
  }

  /** The tiles of the first i rows, row by row. */
  function Tiles(m: seq<seq<int>>, i: nat, zIndex: int): (r: seq<Created>)
    requires i <= |m|
    ensures |r| == Offset(m, i)
  {
    if i == 0 then [] else Tiles(m, i - 1, zIndex) + RowTiles(i - 1, m[i - 1], |m[i - 1]|, zIndex)
  }

  /** The tile of row i', column j is entity number `Offset(m, i') + j`. */
  lemma {:induction false} TileAt(m: seq<seq<int>>, i: nat, i': nat, j: nat, zIndex: int)
    requires i' < i <= |m| && j < |m[i']|
    ensures Offset(m, i') + j < |Tiles(m, i, zIndex)|
    ensures Tiles(m, i, zIndex)[Offset(m, i') + j] == TileEntity(i', j, m[i'][j], zIndex)
    decreases i
  {
    var before := Tiles(m, i - 1, zIndex);
    var row := RowTiles(i - 1, m[i - 1], |m[i - 1]|, zIndex);
    assert Tiles(m, i, zIndex) == before + row;
    if i' < i - 1 {
      TileAt(m, i - 1, i', j, zIndex);
      assert (before + row)[Offset(m, i') + j] == before[Offset(m, i') + j];
    } else {
      assert (before + row)[Offset(m, i') + j] == row[j];
    }
  }

  /** One entity per value, in row-major order. */
  lemma TilesLayout(m: seq<seq<int>>, zIndex: int)
    ensures |Tiles(m, |m|, zIndex)| == Offset(m, |m|)
    ensures forall i, j | 0 <= i < |m| && 0 <= j < |m[i]| ::
              Offset(m, i) + j < |Tiles(m, |m|, zIndex)| &&
              Tiles(m, |m|, zIndex)[Offset(m, i) + j] == TileEntity(i, j, m[i][j], zIndex)
  {
    forall i, j | 0 <= i < |m| && 0 <= j < |m[i]|
      ensures Offset(m, i) + j < |Tiles(m, |m|, zIndex)|
      ensures Tiles(m, |m|, zIndex)[Offset(m, i) + j] == TileEntity(i, j, m[i][j], zIndex)
    {
      TileAt(m, |m|, i, j, zIndex);
    }
  }

  lemma AppendAssoc(a: seq<Created>, b: seq<Created>, c: seq<Created>)
    ensures a + b + c == a + (b + c)
  {
  }

  /** The nested `for` loops: `CreateEntity`, `Group("tiles")`, then the
      transform and the sprite, for each value of each row. */
  method CreateTiles(w: World, m: seq<seq<int>>, zIndex: int) returns (r: World)
    ensures r == w.(created := w.created + Tiles(m, |m|, zIndex))
  {
    var tiles: seq<Created> := [];
    var i := 0;
    while i < |m|
      invariant 0 <= i <= |m|
      invariant tiles == Tiles(m, i, zIndex)
    {
      var j := 0;
      while j < |m[i]|
        invariant 0 <= j <= |m[i]|
        invariant tiles == Tiles(m, i, zIndex) + RowTiles(i, m[i], j, zIndex)
      {
        var tileXPos := j * TILE_SIZE * TILE_SCALE;
        var tileYPos := i * TILE_SIZE * TILE_SCALE;
        var tileSetRow := TruncDiv(m[i][j], TILE_SET_WIDTH);
        var tileSetColumn := m[i][j] - tileSetRow * TILE_SET_WIDTH;
        var srcRectX := TILE_SIZE * tileSetColumn;
        var srcRectY := TILE_SIZE * tileSetRow;
        var tile := Created(Some("tiles"), []);
        tile := tile.(components := tile.components +
                        [TransformC(NewTransform(Vec2(tileXPos as real, tileYPos as real),
                                                 Vec2(TILE_SCALE as real, TILE_SCALE as real)))]);
        tile := tile.(components := tile.components +
                        [SpriteC(NewSprite("tileset", TILE_SIZE, TILE_SIZE, zIndex, false, srcRectX, srcRectY))]);
        assert tile == TileEntity(i, j, m[i][j], zIndex);
        AppendAssoc(Tiles(m, i, zIndex), RowTiles(i, m[i], j, zIndex), [tile]);
        tiles := tiles + [tile];
        j := j + 1;
      }
      i := i + 1;
    }
    r := w.(created := w.created + tiles);
  }

  /** `mapWidth` and `mapHeight`: the first row's length and the number of
      rows, times 64. Indexing the first row of an empty map is undefined, so
      the map must have a row. */
  function MapSize(m: seq<seq<int>>): (size: (int, int))
    requires |m| > 0
    ensures size == (|m[0]| * 64, |m| * 64)
  {
    (|m[0]| * TILE_SIZE * TILE_SCALE, |m| * TILE_SIZE * TILE_SCALE)
  }

  /** In a rectangular map every tile lies inside the map's area. */
  lemma TilesInsideMap(m: seq<seq<int>>, i: nat, j: nat, zIndex: int)
    requires |m| > 0 && forall k | 0 <= k < |m| :: |m[k]| == |m[0]|
    requires i < |m| && j < |m[i]|
    ensures var p := TileEntity(i, j, m[i][j], zIndex).components[0].transform.position;
            && 0.0 <= p.x && p.x + 64.0 <= MapSize(m).0 as real
            && 0.0 <= p.y && p.y + 64.0 <= MapSize(m).1 as real
  {
  }

  /** What loading the tile map leaves: the world with the tiles queued for
      creation, and the map's size in pixels. */
  datatype TileLevel = TileLevel(world: World, mapWidth: int, mapHeight: int)

  /** The tile map part of `LoadLevel`: parse every line, create the tiles,
      set the map size. A field `stoi` rejects throws before any tile is
      created: `None`. An empty file leaves an empty map, whose first row
      `mapWidth` reads, which is undefined. */
  method LoadTiles(w: World, lines: seq<string>, zIndex: int) returns (r: Option<TileLevel>)
    requires |lines| > 0
    ensures r.Some? <==> MapParses(lines)
    ensures r.Some? ==>
              var m := ParsedMap(lines);
              r.value == TileLevel(w.(created := w.created + Tiles(m, |m|, zIndex)), MapSize(m).0, MapSize(m).1)
  {
    var tileMap := ParseTileMap(lines);
    if tileMap.None? {
      return None;
    }
    var m := tileMap.value;
    assert m == ParsedMap(lines);
    var world := CreateTiles(w, m, zIndex);
    var mapWidth := |m[0]| * TILE_SIZE * TILE_SCALE;
    var mapHeight := |m| * TILE_SIZE * TILE_SCALE;
    return Some(TileLevel(world, mapWidth, mapHeight));
  }
}
