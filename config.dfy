/** The one computation of the capture configuration (Config.py) that the
    pipeline depends on: the centre of the emulator window, where the
    scroll gestures are aimed. */
module Config {

  /** A screen coordinate `(x, y)`. */
  type Point = (int, int)

  const TopLeftKey: string := "simulator_top_left"
  const BottomRightKey: string := "simulator_bottom_right"

  /** The point entries of `positions` as shipped (the list of category
      buttons is not a point and is not part of this model). */
  const DefaultPositions: map<string, Point> := map[
    TopLeftKey := (606, 198),
    BottomRightKey := (907, 844),
    "city_dropdown_button" := (647, 246),
    "city_search_box" := (704, 249),
    "city_result" := (688, 285),
    "food_button" := (641, 333),
    "food_ranking_button" := (641, 295),
    "category_dropdown" := (888, 284)
  ]

  /** Python's `d // 2`, which rounds toward negative infinity. */
  function HalfFloor(d: int): (h: int)
    ensures 2 * h <= d < 2 * h + 2
  {
    d / 2
  }

  /** `lo + (hi - lo) // 2`: the midpoint, rounded toward `lo` when `lo` is
      the smaller end. */
  function Midpoint(lo: int, hi: int): (m: int)
    ensures 2 * (m - lo) == hi - lo || 2 * (m - lo) == hi - lo - 1
    ensures lo <= hi ==> lo <= m <= hi
    ensures hi < lo ==> hi <= m <= lo
  {
    lo + HalfFloor(hi - lo)
  }

  /** `get_simulator_center`: the midpoint of the window's corners, each
      coordinate between the corners' coordinates. */
  function SimulatorCenter(positions: map<string, Point>): (center: Point)
    requires TopLeftKey in positions && BottomRightKey in positions
    ensures var (left, top) := positions[TopLeftKey];
      var (right, bottom) := positions[BottomRightKey];
      && (left <= right ==> left <= center.0 <= right)
      && (top <= bottom ==> top <= center.1 <= bottom)
      && (2 * (center.0 - left) == right - left || 2 * (center.0 - left) == right - left - 1)
      && (2 * (center.1 - top) == bottom - top || 2 * (center.1 - top) == bottom - top - 1)
  {
    var (left, top) := positions[TopLeftKey];
    var (right, bottom) := positions[BottomRightKey];
    (Midpoint(left, right), Midpoint(top, bottom))
  }

  /** Only the two corner entries are read. */
  lemma CenterReadsOnlyCorners(p: map<string, Point>, q: map<string, Point>)
    requires TopLeftKey in p && BottomRightKey in p && TopLeftKey in q && BottomRightKey in q
    requires p[TopLeftKey] == q[TopLeftKey] && p[BottomRightKey] == q[BottomRightKey]
    ensures SimulatorCenter(p) == SimulatorCenter(q)
  {
  }

  /** With the shipped coordinates the centre is (756, 521). */
  lemma DefaultCenter()
    ensures TopLeftKey in DefaultPositions && BottomRightKey in DefaultPositions
    ensures SimulatorCenter(DefaultPositions) == (756, 521)
  {
    assert DefaultPositions[TopLeftKey] == (606, 198);
    assert DefaultPositions[BottomRightKey] == (907, 844);
  }
}
