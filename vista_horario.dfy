/**
 * The weekly-template editor (`VistaHorario`): a 7 x 12 grid of day and hour
 * cells. Clicking a cell flips its entry in the `selectedCells` map, and each
 * selected cell rounds exactly those corners that no selected neighbour touches.
 */
module VistaHorario {
  import opened Wrappers
  import opened JsString

  /** `daysOfWeek`: the grid's columns. */
  const Days: seq<string> := ["Lunes", "Martes", "Miércoles", "Jueves", "Viernes", "Sábado", "Domingo"]

  /** `hours`: the grid's rows, 8 to 19. */
  const Hours: seq<int> := [8, 9, 10, 11, 12, 13, 14, 15, 16, 17, 18, 19]

  /** The grid is 7 columns by 12 rows; row `i` starts at hour `8 + i`. */
  lemma GridShape()
    ensures |Days| == 7 && |Hours| == 12
    ensures forall i :: 0 <= i < |Hours| ==> Hours[i] == 8 + i
    ensures Hours[0] == 8 && Hours[11] == 19
  {
  }

  /** The label of row `hour`: `${hour}:00 - ${hour + 1}:00`. */
  function RowLabel(hour: int): (text: string)
    requires 0 <= hour
    ensures |IntToString(hour)| <= |text| && text[..|IntToString(hour)|] == NatToString(hour)
  {
    IntToString(hour) + ":00 - " + IntToString(hour + 1) + ":00"
  }

  /** Reads `<digits>:00` as its hour. */
  function HourPart(p: string): Option<nat> {
    if |p| >= 3 && p[|p| - 3..] == ":00" && AllDigits(p[..|p| - 3]) then Some(DigitsValue(p[..|p| - 3]))
    else None
  }

  /** Reads a label `<a>:00 - <b>:00`, whose parts are separated by single spaces, back into its two hours. */
  function LabelBounds(text: string): Option<(nat, nat)> {
    var parts := Split(text, ' ');
    if |parts| == 3 && parts[1] == "-" && HourPart(parts[0]).Some? && HourPart(parts[2]).Some?
    then Some((HourPart(parts[0]).value, HourPart(parts[2]).value))
    else None
  }

  lemma HourPartOf(n: nat)
    ensures ' ' !in NatToString(n) + ":00"
    ensures HourPart(NatToString(n) + ":00") == Some(n)
  {
    var d := NatToString(n);
    var p := d + ":00";
    assert p[..|p| - 3] == d && p[|p| - 3..] == ":00";
    NatToStringValue(n);
    forall i | 0 <= i < |p| ensures p[i] != ' ' {
      if i < |d| {
        assert p[i] == d[i];
      }
    }
  }

  /** The label of row `hour` reads back as the hour the row starts at and the next hour, at which it ends. */
  lemma RowLabelBounds(hour: nat)
    ensures LabelBounds(RowLabel(hour)) == Some((hour, hour + 1))
  {
    var a, b := NatToString(hour) + ":00", NatToString(hour + 1) + ":00";
    assert RowLabel(hour) == a + [' '] + "-" + [' '] + b by {
      assert IntToString(hour) == NatToString(hour);
      assert IntToString(hour + 1) == NatToString(hour + 1);
    }
    HourPartOf(hour);
    HourPartOf(hour + 1);
    SplitThree(a, "-", b, ' ');
    assert Split(RowLabel(hour), ' ') == [a, "-", b];
  }

  /** Consecutive rows adjoin: each row ends at the hour the next row starts. */
  lemma ConsecutiveRowsAdjoin(r: int)
    requires 0 <= r < 11
    ensures LabelBounds(RowLabel(Hours[r])).Some? && LabelBounds(RowLabel(Hours[r + 1])).Some?
    ensures LabelBounds(RowLabel(Hours[r])).value.1 == LabelBounds(RowLabel(Hours[r + 1])).value.0
  {
    var h := Hours[r];
    assert Hours[r + 1] == h + 1;
    RowLabelBounds(h);
    RowLabelBounds(h + 1);
  }

  /** `${day}-${hour}`: the map key of a cell. */
  function CellKey(day: string, hour: int): string {
    day + "-" + IntToString(hour)
  }

  lemma CellKeySplits(day: string, hour: nat)
    requires '-' !in day
    ensures Split(CellKey(day, hour), '-') == [day, NatToString(hour)]
  {
    assert CellKey(day, hour) == day + ['-'] + NatToString(hour);
    SplitAtSeparator(day, '-', NatToString(hour));
    DigitsHaveNoDash(NatToString(hour));
    SplitNoSeparator(NatToString(hour), '-');
  }

  /** For day names without '-', different cells have different keys. */
  lemma CellKeyInjective(d1: string, h1: nat, d2: string, h2: nat)
    requires '-' !in d1 && '-' !in d2
    ensures CellKey(d1, h1) == CellKey(d2, h2) <==> d1 == d2 && h1 == h2
  {
    if CellKey(d1, h1) == CellKey(d2, h2) {
      CellKeySplits(d1, h1);
      CellKeySplits(d2, h2);
      NatToStringInjective(h1, h2);
    }
  }

  /** The grid's day names are distinct and contain no '-'. */
  lemma DaysDistinctNoDash(c1: int, c2: int)
    requires 0 <= c1 < 7 && 0 <= c2 < 7
    ensures '-' !in Days[c1]
    ensures Days[c1] == Days[c2] <==> c1 == c2
  {
  }

  /** Two grid positions share a key only when they are the same position. */
  lemma GridKeysDistinct(c1: int, r1: int, c2: int, r2: int)
    requires 0 <= c1 < 7 && 0 <= r1 < 12 && 0 <= c2 < 7 && 0 <= r2 < 12
    ensures CellKey(Days[c1], Hours[r1]) == CellKey(Days[c2], Hours[r2]) <==> c1 == c2 && r1 == r2
  {
    DaysDistinctNoDash(c1, c2);
    DaysDistinctNoDash(c2, c1);
    CellKeyInjective(Days[c1], Hours[r1], Days[c2], Hours[r2]);
  }

  /** `selectedCells`: a missing key reads as `undefined`. */
  type Cells = map<string, bool>

  /** The truthiness of `selectedCells[key]`. */
  predicate Selected(cells: Cells, key: string) {
    key in cells && cells[key]
  }

  /** `{ ...prev, [key]: !prev[key] }`. */
  function Toggle(cells: Cells, key: string): (r: Cells)
    ensures r.Keys == cells.Keys + {key}
    ensures Selected(r, key) == !Selected(cells, key)
    ensures forall k :: k in cells && k != key ==> r[k] == cells[k]
  {
    cells[key := !Selected(cells, key)]
  }

  /** Toggling one cell leaves the selected-ness of every other grid cell as it was. */
  lemma ToggleLeavesOtherCells(cells: Cells, c1: int, r1: int, c2: int, r2: int)
    requires 0 <= c1 < 7 && 0 <= r1 < 12 && 0 <= c2 < 7 && 0 <= r2 < 12
    requires c1 != c2 || r1 != r2
    ensures Selected(Toggle(cells, CellKey(Days[c1], Hours[r1])), CellKey(Days[c2], Hours[r2]))
         == Selected(cells, CellKey(Days[c2], Hours[r2]))
  {
    GridKeysDistinct(c1, r1, c2, r2);
  }

  /**
   * Clicking the same cell twice restores its selected-ness; the map itself
   * comes back exactly when the key was already present.
   */
  lemma ToggleTwice(cells: Cells, key: string)
    ensures Selected(Toggle(Toggle(cells, key), key), key) == Selected(cells, key)
    ensures Toggle(Toggle(cells, key), key) == cells <==> key in cells
  {
    var t := Toggle(Toggle(cells, key), key);
    if key in cells {
      assert t.Keys == cells.Keys;
      forall k | k in cells ensures t[k] == cells[k] {
      }
    } else {
      assert key in t;
    }
  }

  /** A stored corner radius: `'0.5rem'` or `'0'`. */
  datatype Radius = Rounded | Square

  datatype Corners = Corners(topLeft: Radius, topRight: Radius, bottomLeft: Radius, bottomRight: Radius)

  /** The inline style of one cell; `corners` is `None` when no radius is set. */
  datatype CellStyle = CellStyle(background: string, corners: Option<Corners>)

  /** A corner is rounded unless one of the two cells touching it along an edge is selected. */
  function Corner(first: bool, second: bool): Radius {
    if !first && !second then Rounded else Square
  }

  /** Whether grid position (`col`, `row`) is selected; positions outside the grid are not. */
  predicate SelectedAt(cells: Cells, col: int, row: int) {
    0 <= col < 7 && 0 <= row < 12 && Selected(cells, CellKey(Days[col], Hours[row]))
  }

  /** The style computed for cell (`col`, `row`). */
  function StyleOf(cells: Cells, col: int, row: int): CellStyle
    requires 0 <= col < 7 && 0 <= row < 12
  {
    var day, hour := Days[col], Hours[row];
    if !Selected(cells, CellKey(day, hour)) then CellStyle("#A294F9", None)
    else
      var leftSelected := col > 0 && Selected(cells, CellKey(Days[col - 1], hour));
      var rightSelected := col < |Days| - 1 && Selected(cells, CellKey(Days[col + 1], hour));
      var topSelected := row > 0 && Selected(cells, CellKey(day, Hours[row - 1]));
      var bottomSelected := row < |Hours| - 1 && Selected(cells, CellKey(day, Hours[row + 1]));
      CellStyle("transparent", Some(Corners(
        Corner(topSelected, leftSelected), Corner(topSelected, rightSelected),
        Corner(bottomSelected, leftSelected), Corner(bottomSelected, rightSelected))))
  }

  /**
   * An unselected cell is coloured and has no radius; a selected one is
   * transparent and each corner is rounded iff neither adjoining neighbour is
   * selected, neighbours outside the grid counting as unselected.
   */
  lemma StyleRule(cells: Cells, col: int, row: int)
    requires 0 <= col < 7 && 0 <= row < 12
    ensures !SelectedAt(cells, col, row) ==> StyleOf(cells, col, row) == CellStyle("#A294F9", None)
    ensures SelectedAt(cells, col, row) ==> StyleOf(cells, col, row) == CellStyle("transparent", Some(Corners(
              Corner(SelectedAt(cells, col, row - 1), SelectedAt(cells, col - 1, row)),
              Corner(SelectedAt(cells, col, row - 1), SelectedAt(cells, col + 1, row)),
              Corner(SelectedAt(cells, col, row + 1), SelectedAt(cells, col - 1, row)),
              Corner(SelectedAt(cells, col, row + 1), SelectedAt(cells, col + 1, row)))))
  {
  }

  /** A selected cell with no selected neighbour has all four corners rounded. */
  lemma IsolatedCellFullyRounded(cells: Cells, col: int, row: int)
    requires 0 <= col < 7 && 0 <= row < 12 && SelectedAt(cells, col, row)
    requires !SelectedAt(cells, col - 1, row) && !SelectedAt(cells, col + 1, row)
    requires !SelectedAt(cells, col, row - 1) && !SelectedAt(cells, col, row + 1)
    ensures StyleOf(cells, col, row).corners == Some(Corners(Rounded, Rounded, Rounded, Rounded))
  {
    StyleRule(cells, col, row);
  }

  /** Two selected cells side by side have square corners along their shared edge. */
  lemma HorizontalNeighboursJoin(cells: Cells, col: int, row: int)
    requires 0 <= col < 6 && 0 <= row < 12
    requires SelectedAt(cells, col, row) && SelectedAt(cells, col + 1, row)
    ensures var l, r := StyleOf(cells, col, row).corners.value, StyleOf(cells, col + 1, row).corners.value;
            l.topRight == Square && l.bottomRight == Square && r.topLeft == Square && r.bottomLeft == Square
  {
    StyleRule(cells, col, row);
    StyleRule(cells, col + 1, row);
  }

  /** Two selected cells one above the other have square corners along their shared edge. */
  lemma VerticalNeighboursJoin(cells: Cells, col: int, row: int)
    requires 0 <= col < 7 && 0 <= row < 11
    requires SelectedAt(cells, col, row) && SelectedAt(cells, col, row + 1)
    ensures var t, b := StyleOf(cells, col, row).corners.value, StyleOf(cells, col, row + 1).corners.value;
            t.bottomLeft == Square && t.bottomRight == Square && b.topLeft == Square && b.topRight == Square
  {
    StyleRule(cells, col, row);
    StyleRule(cells, col, row + 1);
  }

  /** The grid's outer corners are rounded whenever their cell is selected. */
  lemma OuterCornersRounded(cells: Cells)
    ensures SelectedAt(cells, 0, 0) ==> StyleOf(cells, 0, 0).corners.value.topLeft == Rounded
    ensures SelectedAt(cells, 6, 0) ==> StyleOf(cells, 6, 0).corners.value.topRight == Rounded
    ensures SelectedAt(cells, 0, 11) ==> StyleOf(cells, 0, 11).corners.value.bottomLeft == Rounded
    ensures SelectedAt(cells, 6, 11) ==> StyleOf(cells, 6, 11).corners.value.bottomRight == Rounded
  {
    StyleRule(cells, 0, 0);
    StyleRule(cells, 6, 0);
    StyleRule(cells, 0, 11);
    StyleRule(cells, 6, 11);
  }

  class WeeklyGrid {
    var selectedCells: Cells

    constructor ()
      ensures selectedCells == map[]
    {
      selectedCells := map[];
    }

    /** `handleCellClick(day, hour)`. */
    method CellClick(day: string, hour: int)
      modifies this
      ensures selectedCells == Toggle(old(selectedCells), CellKey(day, hour))
    {
      var key := CellKey(day, hour);
      selectedCells := Toggle(selectedCells, key);
    }
  }
}
