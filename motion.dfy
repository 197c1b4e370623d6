/** Horizontal movement of the player and the camera that follows it. */
module Motion {
  import opened Content

  function Max(a: int, b: int): int { if a < b then b else a }

  /** The largest x the player may stand at on a map of the given width. */
  function MaxX(mapWidth: int, width: int): int { Max(0, mapWidth - width) }

  /**
   * The bounds clamp of the player's x: the result always lies in
   * [0, MaxX], is x itself when x is already there, and is the nearer
   * bound otherwise.
   */
  function ClampX(x: int, mapWidth: int, width: int): (r: int)
    ensures 0 <= r <= MaxX(mapWidth, width)
    ensures 0 <= x <= mapWidth - width ==> r == x
    ensures x < 0 ==> r == 0
    ensures x > mapWidth - width ==> r == MaxX(mapWidth, width)
  {
    var m := if mapWidth - width < x then mapWidth - width else x;
    if m < 0 then 0 else m
  }

  /** The speed the player moves at: the run speed while running, else the walk speed. */
  function CurrentSpeed(p: Player): int
  {
    if p.isRunning then p.runSpeed else p.speed
  }

  /**
   * The animation state chosen from the movement flags: idle exactly when
   * not moving, otherwise run exactly when running, otherwise walk.
   */
  function StateFor(isMoving: bool, isRunning: bool): (s: AnimState)
    ensures (s == Idle) == !isMoving
    ensures (s == Run) == (isMoving && isRunning)
    ensures (s == Walk) == (isMoving && !isRunning)
  {
    if !isMoving then Idle else if isRunning then Run else Walk
  }

  /**
   * The camera's x for a player at `playerX` and a view `viewWidth` wide:
   * never left of the map, never further right than the last full view
   * (when the map is wider than the view), and centred on the player
   * whenever that is possible; a centre left of the map pins the camera to
   * the left edge, one past the last full view pins it to that view.
   */
  function CameraX(playerX: int, viewWidth: int, mapWidth: int): (c: real)
    ensures 0.0 <= c
    ensures viewWidth <= mapWidth ==> c <= (mapWidth - viewWidth) as real
    ensures viewWidth > mapWidth ==> c == 0.0
    ensures 0.0 <= playerX as real - viewWidth as real / 2.0 <= (mapWidth - viewWidth) as real ==>
              c == playerX as real - viewWidth as real / 2.0
    ensures playerX as real - viewWidth as real / 2.0 < 0.0 ==> c == 0.0
    ensures viewWidth <= mapWidth && playerX as real - viewWidth as real / 2.0 > (mapWidth - viewWidth) as real ==>
              c == (mapWidth - viewWidth) as real
  {
    var target := playerX as real - viewWidth as real / 2.0;
    var bound := (mapWidth - viewWidth) as real;
    var m := if target < bound then target else bound;
    if m < 0.0 then 0.0 else m
  }
}
