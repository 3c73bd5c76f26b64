/** Positions and turns on a world that wraps around (simpleworld/movement.cpp). */
module Movement {
  import opened Words

  datatype Position = Position(x: HalfWord, y: HalfWord)

  datatype Orientation = North | East | South | West

  datatype Side = Left | Right

  datatype Direction = Forward | Backward

  /** A world has at least one cell in each direction. */
  predicate IsSize(size: Position) {
    size.x > 0 && size.y > 0
  }

  predicate Inside(p: Position, size: Position) {
    p.x < size.x && p.y < size.y
  }

  function Ordinal(o: Orientation): nat {
    match o case North => 0 case East => 1 case South => 2 case West => 3
  }

  function FromNumber(n: int): Orientation {
    if n == 0 then North else if n == 1 then East else if n == 2 then South else West
  }

  function Turn(o: Orientation, side: Side): Orientation {
    FromNumber((Ordinal(o) + (if side == Left then 3 else 5)) % 4)
  }

  function Opposite(d: Direction): Direction {
    match d case Forward => Backward case Backward => Forward
  }

  function Step(c: HalfWord, delta: int, max: HalfWord): HalfWord
    requires max > 0 && (delta == 1 || delta == -1)
  {
    (c as int + delta + max as int) % (max as int)
  }

  function Move(p: Position, o: Orientation, d: Direction, size: Position): Position
    requires IsSize(size)
  {
    var d := if o == South || o == West then Opposite(d) else d;
    if o == North || o == South then p.(x := Step(p.x, if d == Forward then -1 else 1, size.x))
    else p.(y := Step(p.y, if d == Forward then 1 else -1, size.y))
  }

  function Front(p: Position, o: Orientation, size: Position): Position
    requires IsSize(size)
  {
    Move(p, o, Forward, size)
  }

  // ----- Laws of the torus

  lemma StepExact(c: HalfWord, delta: int, max: HalfWord)
    requires c < max && (delta == 1 || delta == -1)
    ensures Step(c, delta, max) ==
            if c as int + delta == max as int then 0 else if c as int + delta < 0 then max - 1 else c as int + delta
  {
    var v := c as int + delta;
    if v == max as int {
      Remainder(v + max as int, max, 2, 0);
    } else if v < 0 {
      Remainder(v + max as int, max, 0, v + max as int);
    } else {
      Remainder(v + max as int, max, 1, v);
    }
  }

  /** The cell in front: one row up or down for north and south, one column on or back for east and
      west, and the other edge from the last one. */
  lemma FrontCell(p: Position, o: Orientation, size: Position)
    requires Inside(p, size)
    ensures Front(p, o, size) ==
            match o
            case North => Position(if p.x == 0 then size.x - 1 else p.x - 1, p.y)
            case South => Position(if p.x + 1 == size.x then 0 else p.x + 1, p.y)
            case East => Position(p.x, if p.y + 1 == size.y then 0 else p.y + 1)
            case West => Position(p.x, if p.y == 0 then size.y - 1 else p.y - 1)
  {
    hide Step;
    StepExact(p.x, 1, size.x);
    StepExact(p.x, -1, size.x);
    StepExact(p.y, 1, size.y);
    StepExact(p.y, -1, size.y);
  }

  /** Moves stay in the world, backward undoes forward and forward undoes backward. */
  lemma MoveUndone(p: Position, o: Orientation, d: Direction, size: Position)
    requires Inside(p, size)
    ensures Inside(Move(p, o, d, size), size)
    ensures Move(Move(p, o, d, size), o, Opposite(d), size) == p
  {
    hide Step;
    StepExact(p.x, 1, size.x);
    StepExact(p.x, -1, size.x);
    StepExact(p.y, 1, size.y);
    StepExact(p.y, -1, size.y);
    StepExact(Step(p.x, 1, size.x), -1, size.x);
    StepExact(Step(p.x, -1, size.x), 1, size.x);
    StepExact(Step(p.y, 1, size.y), -1, size.y);
    StepExact(Step(p.y, -1, size.y), 1, size.y);
  }

  /** The turns as a table. */
  lemma TurnTable(o: Orientation)
    ensures Turn(o, Left) == match o case North => West case East => North case South => East case West => South
    ensures Turn(o, Right) == match o case North => East case East => South case South => West case West => North
  {
    match o
    case North => assert Ordinal(o) == 0;
    case East => assert Ordinal(o) == 1;
    case South => assert Ordinal(o) == 2;
    case West => assert Ordinal(o) == 3;
  }

  /** Four turns to one side, and one turn to each side, change nothing. */
  lemma TurnsCancel(o: Orientation, side: Side)
    ensures Turn(Turn(Turn(Turn(o, side), side), side), side) == o
    ensures Turn(Turn(o, Left), Right) == o && Turn(Turn(o, Right), Left) == o
  {
    hide Turn;
    TurnTable(North);
    TurnTable(East);
    TurnTable(South);
    TurnTable(West);
  }

  /** What is laid in front, turned round, faces whoever laid it. */
  lemma EggFacesFather(p: Position, o: Orientation, size: Position)
    requires Inside(p, size)
    ensures Front(Front(p, o, size), Turn(Turn(o, Left), Left), size) == p
  {
    hide Step, Turn;
    TurnTable(o);
    TurnTable(Turn(o, Left));
    MoveUndone(p, o, Forward, size);
  }

  /** The cell in front is another cell when the world is at least two wide that way. */
  lemma FrontIsOther(p: Position, o: Orientation, size: Position)
    requires Inside(p, size) && size.x >= 2 && size.y >= 2
    ensures Front(p, o, size) != p
  {
    hide Step;
    StepExact(p.x, 1, size.x);
    StepExact(p.x, -1, size.x);
    StepExact(p.y, 1, size.y);
    StepExact(p.y, -1, size.y);
  }

  function Walk(p: Position, o: Orientation, d: Direction, size: Position, n: nat): Position
    requires IsSize(size)
  {
    if n == 0 then p else Move(Walk(p, o, d, size, n - 1), o, d, size)
  }

  /** After `n` steps, at most once around, the coordinate has gone `n` on, past the edge. */
  lemma {:induction false} WalkCounts(p: Position, o: Orientation, d: Direction, size: Position, n: nat)
    requires Inside(p, size) && n <= (if o == North || o == South then size.x else size.y)
    ensures var q, up := Walk(p, o, d, size, n), (o == South || o == East) == (d == Forward);
            if o == North || o == South then
              q.y == p.y && q.x as int == if up then (if p.x + n < size.x then p.x + n else p.x + n - size.x)
                                   else (if p.x >= n then p.x - n else p.x - n + size.x)
            else
              q.x == p.x && q.y as int == if up then (if p.y + n < size.y then p.y + n else p.y + n - size.y)
                                   else (if p.y >= n then p.y - n else p.y - n + size.y)
  {
    hide Step;
    if n == 0 {
    } else {
      WalkCounts(p, o, d, size, n - 1);
      var q := Walk(p, o, d, size, n - 1);
      StepExact(q.x, 1, size.x);
      StepExact(q.x, -1, size.x);
      StepExact(q.y, 1, size.y);
      StepExact(q.y, -1, size.y);
    }
  }

  /** Walking the full width or height comes back to the start. */
  lemma WalkAround(p: Position, o: Orientation, d: Direction, size: Position)
    requires Inside(p, size)
    ensures Walk(p, o, d, size, if o == North || o == South then size.x else size.y) == p
  {
    WalkCounts(p, o, d, size, if o == North || o == South then size.x else size.y);
  }
}
