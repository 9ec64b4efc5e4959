/** The window-movement shortcuts and the resize handler of main.js, as integer arithmetic on
    the window bounds; the Electron window itself is not modelled. */
module Window {

  datatype Bounds = Bounds(x: int, y: int, width: int, height: int)

  /** Pixels moved per key press. */
  const MoveDistance: int := 10

  function Max(a: int, b: int): int { if a >= b then a else b }

  function Min(a: int, b: int): int { if a <= b then a else b }

  /** moveUp: ten pixels up, but never above the top edge. */
  function MoveUp(b: Bounds): (r: Bounds)
    ensures r.x == b.x && r.width == b.width && r.height == b.height
    ensures r.y >= 0
    ensures r.y == b.y - MoveDistance || r.y == 0
    ensures b.y >= 0 ==> b.y - MoveDistance <= r.y <= b.y
  {
    b.(y := Max(0, b.y - MoveDistance))
  }

  /** moveDown: ten pixels down, but the bottom edge never below the work area's. */
  function MoveDown(b: Bounds, workHeight: int): (r: Bounds)
    ensures r.x == b.x && r.width == b.width && r.height == b.height
    ensures r.y + b.height <= workHeight
    ensures r.y == b.y + MoveDistance || r.y == workHeight - b.height
    ensures b.y + b.height <= workHeight ==> b.y <= r.y <= b.y + MoveDistance
  {
    b.(y := Min(workHeight - b.height, b.y + MoveDistance))
  }

  /** moveLeft: ten pixels left, but never past the left edge. */
  function MoveLeft(b: Bounds): (r: Bounds)
    ensures r.y == b.y && r.width == b.width && r.height == b.height
    ensures r.x >= 0
    ensures r.x == b.x - MoveDistance || r.x == 0
    ensures b.x >= 0 ==> b.x - MoveDistance <= r.x <= b.x
  {
    b.(x := Max(0, b.x - MoveDistance))
  }

  /** moveRight: ten pixels right, but the right edge never past the work area's. */
  function MoveRight(b: Bounds, workWidth: int): (r: Bounds)
    ensures r.y == b.y && r.width == b.width && r.height == b.height
    ensures r.x + b.width <= workWidth
    ensures r.x == b.x + MoveDistance || r.x == workWidth - b.width
    ensures b.x + b.width <= workWidth ==> b.x <= r.x <= b.x + MoveDistance
  {
    b.(x := Min(workWidth - b.width, b.x + MoveDistance))
  }

  /** A window that fits the work area stays inside it whichever way it is moved. */
  predicate OnScreen(b: Bounds, workWidth: int, workHeight: int) {
    0 <= b.x && b.x + b.width <= workWidth && 0 <= b.y && b.y + b.height <= workHeight
  }

  lemma MovesKeepOnScreen(b: Bounds, workWidth: int, workHeight: int)
    requires OnScreen(b, workWidth, workHeight)
    ensures OnScreen(MoveUp(b), workWidth, workHeight)
    ensures OnScreen(MoveDown(b, workHeight), workWidth, workHeight)
    ensures OnScreen(MoveLeft(b), workWidth, workHeight)
    ensures OnScreen(MoveRight(b, workWidth), workWidth, workHeight)
  {
  }

  /** Up then down, or left then right, returns the window to where it was when neither
      move hit an edge. */
  lemma MovesUndo(b: Bounds, workWidth: int, workHeight: int)
    requires OnScreen(b, workWidth, workHeight)
    requires b.y >= MoveDistance && b.x >= MoveDistance
    ensures MoveDown(MoveUp(b), workHeight) == b
    ensures MoveRight(MoveLeft(b), workWidth) == b
  {
  }

  /** resize-window: the new size, centred horizontally on the work area (`Math.floor` of the
      half of the free width), keeping the vertical position. */
  function Resize(b: Bounds, width: int, height: int, workWidth: int): (r: Bounds)
    ensures r.y == b.y && r.width == width && r.height == height
    ensures r.x + width + r.x == workWidth || r.x + width + r.x == workWidth - 1
  {
    Bounds((workWidth - width) / 2, b.y, width, height)
  }
}
