/** What bugs do and what the world does to them, as functions on the whole state
    (simpleworld/simpleworld.cpp), with what every step keeps and what it does to matter. */
module Actions {
  import opened Options
  import opened Words
  import opened Movement
  import opened WorldModel
  import opened Simulation

  /** The environment: the cost of each action and the periods of the phases. */
  datatype Env = Env(now: Time, move: Energy, turn: Energy, attack: Energy, eat: Energy, egg: Energy,
                     laziness: Energy, timeLaziness: Time, timeBirth: Time, timeMutate: Time,
                     timeRot: Time, sizeRot: Energy)

  /** How an action ends. `EventFault` is the error of the interrupt that tells a bug it has been
      attacked, which reaches the attacker; `DatabaseError` is a row the tables refuse, which nothing
      in the program catches. */
  datatype End = Success | ActionError | BugDeath | EventFault | DatabaseError

  datatype Result = Result(s: Sim, end: End)

  predicate Living(s: Sim, r: nat) {
    r in s.rows && !s.rows[r].kind.Food?
  }

  /** `substract_energy`: the death is announced before anything is taken. */
  function Spend(s: Sim, r: nat, cost: Energy): Result
    requires r in s.rows
  {
    var row := s.rows[r];
    if row.energy <= cost then Result(s, BugDeath)
    else Result(Update(s, r, row.(energy := row.energy - cost)), Success)
  }

  /** A dead bug or egg becomes food of the size of its code, on its cell. */
  function Remains(row: Row, now: Time): Row {
    Row(Food, row.position, row.orientation, 0, row.size, now, None)
  }

  function Kill(s: Sim, r: nat, now: Time): Sim
    requires r in s.rows
  {
    Insert(Delete(s, r), Remains(s.rows[r], now))
  }

  /** The bug that comes out of an egg has its energy, code, cell and orientation. */
  function Hatched(row: Row, now: Time): Row {
    Row(Bug, row.position, row.orientation, row.energy, row.size, now, None)
  }

  function Birth(s: Sim, r: nat, now: Time): Sim
    requires r in s.rows
  {
    Insert(Delete(s, r), Hatched(s.rows[r], now))
  }

  function FrontOf(s: Sim, b: nat): Position
    requires b in s.rows && IsSize(s.size)
  {
    Front(s.rows[b].position, s.rows[b].orientation, s.size)
  }

  /** Always to the cell in front, whatever the direction asked for. */
  function MoveBug(s: Sim, b: nat, env: Env): Result
    requires b in s.rows && IsSize(s.size)
  {
    var r := Spend(s, b, env.move);
    if r.end.BugDeath? then r
    else
      var current, front := r.s.rows[b].position, FrontOf(r.s, b);
      if front in r.s.grid || !Inside(front, s.size) then Result(r.s, ActionError)
      else
        Result(Relocate(r.s, b, if current.x != front.x then current.(x := front.x) else current.(y := front.y)), Success)
  }

  function TurnBug(s: Sim, b: nat, side: Side, env: Env): Result
    requires b in s.rows
  {
    var r := Spend(s, b, env.turn);
    if r.end.BugDeath? then r
    else
      var row := r.s.rows[b];
      Result(Update(r.s, b, row.(orientation := Turn(row.orientation, side))), Success)
  }

  /** The target pays `damage`, what the multiplier makes of `energy`; then the attacker pays. In a
      world one cell wide a bug can be its own target, and the tables refuse a bug that killed itself. */
  function Attack(s: Sim, b: nat, energy: Energy, damage: Energy, fault: bool, env: Env): Result
    requires Agreement(s) && b in s.bugs && IsSize(s.size)
  {
    var r := Spend(s, b, env.attack);
    if r.end.BugDeath? then r
    else
      var front := FrontOf(r.s, b);
      if front !in r.s.grid || r.s.grid[front].kind.Food? then Result(r.s, ActionError)
      else
        UpdateAgrees(s, b, r.s.rows[b]);
        var target := r.s.grid[front];
        var hit := Spend(r.s, target.id, damage);
        if hit.end.BugDeath? then
          if target.id == b then Result(r.s, DatabaseError)
          else
            ReplaceRows(r.s, target.id, Remains(r.s.rows[target.id], env.now));
            Spend(Kill(r.s, target.id, env.now), b, energy)
        else if target.kind.Bug? && fault then Result(hit.s, EventFault)
        else Spend(hit.s, b, energy)
  }

  /** Energies are stored as signed 32-bit integers that must be positive. */
  predicate Storable(energy: Energy) {
    0 < energy < 0x8000_0000
  }

  /** Food gives its size; an egg becomes food and gives nothing yet. */
  function Eat(s: Sim, b: nat, env: Env): Result
    requires Agreement(s) && b in s.bugs && IsSize(s.size)
  {
    var r := Spend(s, b, env.eat);
    if r.end.BugDeath? then r
    else
      var front := FrontOf(r.s, b);
      if front !in r.s.grid || r.s.grid[front].kind.Bug? then Result(r.s, ActionError)
      else
        UpdateAgrees(s, b, r.s.rows[b]);
        var target := r.s.grid[front];
        if target.kind.Egg? then Result(Kill(r.s, target.id, env.now), Success)
        else
          var row := r.s.rows[b];
          var fed := Plus(row.energy, r.s.rows[target.id].size);
          if !Storable(fed) then Result(r.s, DatabaseError)
          else Result(Delete(Update(r.s, b, row.(energy := fed)), target.id), Success)
  }

  /** The egg in front faces its father; `code` is the length of its possibly mutated code. */
  function Laid(father: Row, front: Position, energy: Energy, code: Energy, now: Time): Row {
    Row(Egg, front, Turn(Turn(father.orientation, Left), Left), Words.Min(father.energy, energy), code, now, None)
  }

  /** The codes the tables take: whole words, and not none of them. */
  predicate CodeFits(code: Energy) {
    code > 0 && code % 4 == 0
  }

  /** The code is stored and paid before the egg is placed, its energy after. */
  function LayEgg(s: Sim, b: nat, energy: Energy, code: Energy, env: Env): Result
    requires b in s.rows && IsSize(s.size)
  {
    var r := Spend(s, b, env.egg);
    if r.end.BugDeath? then r
    else
      var front := FrontOf(r.s, b);
      if energy == 0 || front in r.s.grid then Result(r.s, ActionError)
      else if !CodeFits(code) then Result(r.s, DatabaseError)
      else
        var paid := Spend(r.s, b, code);
        if paid.end.BugDeath? then Result(r.s, BugDeath)
        else
          var placed := Insert(paid.s, Laid(r.s.rows[b], front, energy, code, env.now));
          Spend(placed, b, energy)
  }

  /** The cell a bug looks at: north is a smaller and south a larger first coordinate, east a larger and
      west a smaller second one, around the edge. */
  lemma FrontOfCell(s: Sim, b: nat)
    requires b in s.rows && Inside(s.rows[b].position, s.size)
    ensures var p, o := s.rows[b].position, s.rows[b].orientation;
            FrontOf(s, b) ==
            if o == North then Position(if p.x == 0 then s.size.x - 1 else p.x - 1, p.y)
            else if o == South then Position(if p.x + 1 == s.size.x then 0 else p.x + 1, p.y)
            else if o == East then Position(p.x, if p.y + 1 == s.size.y then 0 else p.y + 1)
            else Position(p.x, if p.y == 0 then s.size.y - 1 else p.y - 1)
  {
    hide Front;
    FrontCell(s.rows[b].position, s.rows[b].orientation, s.size);
  }

  // ----- What the changes keep

  /** A state a step may leave: the same world in agreement, and nothing alive without energy. */
  predicate Sound(s: Sim) {
    Agreement(s) && Alive(s) && IsSize(s.size)
  }

  lemma MemberOf(s: Sim, r: nat)
    requires Agreement(s)
    ensures r in s.bugs ==> r in s.rows && s.rows[r].kind.Bug?
    ensures r in s.eggs ==> r in s.rows && s.rows[r].kind.Egg?
    ensures r in s.foods ==> r in s.rows && s.rows[r].kind.Food?
    ensures r in s.rows ==> (r in s.bugs <==> s.rows[r].kind.Bug?)
    ensures r in s.rows ==> s.rows[r].position in s.grid && s.grid[s.rows[r].position] == Element(r, s.rows[r].kind)
                            && Inside(s.rows[r].position, s.size)
  {
  }

  lemma CellOf(s: Sim, p: Position)
    requires Agreement(s) && p in s.grid
    ensures var e := s.grid[p]; e.id in s.rows && s.rows[e.id].position == p && s.rows[e.id].kind == e.kind
  {
  }

  /** Paying takes exactly the cost, or nothing and announces the death. */
  lemma SpendKeeps(s: Sim, r: nat, cost: Energy)
    requires Sound(s) && Living(s, r)
    ensures var n := Spend(s, r, cost);
            && Sound(n.s) && n.s.size == s.size && n.s.rows.Keys == s.rows.Keys && n.s.grid == s.grid
            && n.s.bugs == s.bugs && n.s.eggs == s.eggs && n.s.foods == s.foods
            && (n.end.BugDeath? || n.end.Success?)
            && (n.end.BugDeath? <==> s.rows[r].energy <= cost)
            && Total(n.s) == Total(s) - if n.end.BugDeath? then 0 else cost
  {
    hide Agreement, Total;
    if s.rows[r].energy > cost {
      TotalUpdated(s, r, s.rows[r].(energy := s.rows[r].energy - cost));
    }
  }

  lemma ReplaceRows(s: Sim, r: nat, row: Row)
    requires r in s.rows
    ensures var d, n := Delete(s, r), Insert(Delete(s, r), row);
            && d.grid == s.grid - {s.rows[r].position} && d.size == s.size && n.size == s.size
            && n.rows == (s.rows - {r})[s.next := row]
  {
    hide Without;
  }

  /** Putting something else on the cell of an element that goes. */
  lemma ReplaceKeeps(s: Sim, r: nat, row: Row)
    requires Sound(s) && r in s.rows && row.position == s.rows[r].position
    requires !row.kind.Food? ==> row.energy > 0
    ensures var n := Insert(Delete(s, r), row);
            && Sound(n) && n.size == s.size
            && Total(n) == Total(s) - Weight(s.rows[r]) + Weight(row)
            && (forall q :: q in s.rows && q != r ==> q in n.rows && n.rows[q] == s.rows[q])
            && r !in n.rows
  {
    MemberOf(s, r);
    ReplaceRows(s, r, row);
    ReplaceAlive(s, r, row);
    hide Agreement, Total, Delete, Insert, Inside, Weight, Alive;
    TotalDeleted(s, r);
    TotalInserted(Delete(s, r), row);
  }

  lemma ReplaceAlive(s: Sim, r: nat, row: Row)
    requires Agreement(s) && Alive(s) && r in s.rows && (!row.kind.Food? ==> row.energy > 0)
    ensures var n := Insert(Delete(s, r), row);
            && Alive(n) && r !in n.rows
            && (forall q :: q in s.rows && q != r ==> q in n.rows && n.rows[q] == s.rows[q])
  {
    hide Delete, Insert, Agreement;
    NextIsNew(s);
    ReplaceRows(s, r, row);
  }

  lemma NextIsNew(s: Sim)
    requires Agreement(s)
    ensures forall q :: q in s.rows ==> q < s.next
  {
  }

  /** A death loses exactly the energy left: the code is still there, as food. */
  lemma KillKeeps(s: Sim, r: nat, now: Time)
    requires Sound(s) && Living(s, r)
    ensures var n := Kill(s, r, now);
            && Sound(n) && n.size == s.size
            && Total(n) == Total(s) - s.rows[r].energy
            && (forall q :: q in s.rows && q != r ==> q in n.rows && n.rows[q] == s.rows[q])
            && r !in n.rows
  {
    hide Agreement, Total, Insert, Delete;
    ReplaceKeeps(s, r, Remains(s.rows[r], now));
  }

  /** A birth loses nothing. */
  lemma BirthKeeps(s: Sim, r: nat, now: Time)
    requires Sound(s) && r in s.rows && s.rows[r].kind.Egg?
    ensures var n := Birth(s, r, now);
            && Sound(n) && n.size == s.size
            && Total(n) == Total(s)
            && (forall q :: q in s.rows && q != r ==> q in n.rows && n.rows[q] == s.rows[q])
            && r !in n.rows
  {
    hide Agreement, Total, Insert, Delete;
    ReplaceKeeps(s, r, Hatched(s.rows[r], now));
  }

  // ----- The actions

  /** A step of bug `b`: everything still agrees, `b` is still a living bug of the same world, and
      matter has not grown. */
  predicate Steps(s: Sim, b: nat, n: Sim) {
    && Sound(s) && Sound(n) && n.size == s.size
    && b in n.bugs && b in n.rows && n.rows[b].kind.Bug?
    && Total(n) <= Total(s)
  }

  lemma SpendSteps(s: Sim, b: nat, cost: Energy)
    requires Sound(s) && b in s.bugs
    ensures b in s.rows && Steps(s, b, Spend(s, b, cost).s)
  {
    MemberOf(s, b);
    SpendKeeps(s, b, cost);
    MemberOf(Spend(s, b, cost).s, b);
  }

  /** A move goes to the cell in front or nowhere. */
  lemma MoveSteps(s: Sim, b: nat, env: Env)
    requires Sound(s) && b in s.bugs
    ensures b in s.rows && Steps(s, b, MoveBug(s, b, env).s)
    ensures MoveBug(s, b, env).end.Success? ==>
              MoveBug(s, b, env).s.rows[b].position == FrontOf(s, b) && FrontOf(s, b) !in s.grid
    ensures !MoveBug(s, b, env).end.BugDeath? ==> Total(MoveBug(s, b, env).s) == Total(s) - env.move
  {
    hide Agreement, Total, Front, Alive;
    BugAlive(s, b);
    SpendSteps(s, b, env.move);
    SpendKeeps(s, b, env.move);
    var r := Spend(s, b, env.move);
    if r.end.Success? && FrontOf(r.s, b) !in r.s.grid && Inside(FrontOf(r.s, b), s.size) {
      FrontTurnsOneWay(r.s.rows[b].position, r.s.rows[b].orientation, s.size);
      TotalRelocated(r.s, b, FrontOf(r.s, b));
      RelocateAlive(r.s, b, FrontOf(r.s, b));
    }
  }

  /** A bug that pays for nothing else has lost the fee and nothing else has changed. */
  function Charged(s: Sim, b: nat, fee: Energy): Sim
    requires b in s.rows && s.rows[b].energy > fee
  {
    s.(rows := s.rows[b := s.rows[b].(energy := s.rows[b].energy - fee)])
  }

  /** When a move ends how, and all that it changes: the bug dies when it cannot pay; it stays, with an
      action error, when the cell in front is taken; and otherwise stands there. */
  lemma MoveEnds(s: Sim, b: nat, env: Env)
    requires Sound(s) && b in s.bugs
    ensures b in s.rows
    ensures var r, row, front := MoveBug(s, b, env), s.rows[b], FrontOf(s, b);
            if row.energy <= env.move then r == Result(s, BugDeath)
            else if front in s.grid then r == Result(Charged(s, b, env.move), ActionError)
            else
              r == Result(s.(rows := s.rows[b := row.(energy := row.energy - env.move, position := front)],
                             grid := (s.grid - {row.position})[front := Element(b, Bug)]), Success)
  {
    hide Agreement, Total, Front, Alive;
    BugAlive(s, b);
    MemberOf(s, b);
    FrontInside(s.rows[b].position, s.rows[b].orientation, s.size);
    FrontTurnsOneWay(s.rows[b].position, s.rows[b].orientation, s.size);
  }

  /** When a turn ends how: the bug dies when it cannot pay, and otherwise looks to the side. */
  lemma TurnEnds(s: Sim, b: nat, side: Side, env: Env)
    requires Sound(s) && b in s.bugs
    ensures b in s.rows
    ensures var r, row := TurnBug(s, b, side, env), s.rows[b];
            var left := match row.orientation
                        case North => West case East => North case South => East case West => South;
            var right := match row.orientation
                         case North => East case East => South case South => West case West => North;
            if row.energy <= env.turn then r == Result(s, BugDeath)
            else
              r == Result(s.(rows := s.rows[b := row.(energy := row.energy - env.turn,
                                                      orientation := if side.Left? then left else right)]), Success)
  {
    hide Agreement, Total, Turn, Alive;
    BugAlive(s, b);
    TurnTable(s.rows[b].orientation);
  }

  lemma RelocateAlive(s: Sim, r: nat, to: Position)
    requires Alive(s) && r in s.rows
    ensures Alive(Relocate(s, r, to))
  {
  }

  /** The front differs in one coordinate at most. */
  lemma FrontTurnsOneWay(p: Position, o: Orientation, size: Position)
    requires IsSize(size)
    ensures var f := Front(p, o, size); f == if p.x != f.x then p.(x := f.x) else p.(y := f.y)
  {
    hide Step;
  }

  /** Changing columns of a bug that lives on, without making it heavier. */
  lemma UpdateSteps(s: Sim, b: nat, row: Row)
    requires Sound(s) && b in s.bugs && b in s.rows
    requires row.kind == s.rows[b].kind && row.position == s.rows[b].position && row.energy > 0
    requires Weight(row) <= Weight(s.rows[b])
    ensures Steps(s, b, Update(s, b, row)) && Total(Update(s, b, row)) == Total(s) - Weight(s.rows[b]) + Weight(row)
  {
    MemberOf(s, b);
    UpdateAlive(s, b, row);
    hide Agreement, Total, Weight, Alive;
    TotalUpdated(s, b, row);
  }

  lemma UpdateAlive(s: Sim, r: nat, row: Row)
    requires Alive(s) && row.energy > 0
    ensures Alive(Update(s, r, row))
  {
  }

  lemma TurnSteps(s: Sim, b: nat, side: Side, env: Env)
    requires Sound(s) && b in s.bugs
    ensures b in s.rows && Steps(s, b, TurnBug(s, b, side, env).s)
    ensures TurnBug(s, b, side, env).end.Success? ==>
              TurnBug(s, b, side, env).s.rows[b].orientation == Turn(s.rows[b].orientation, side)
    ensures !TurnBug(s, b, side, env).end.BugDeath? ==> Total(TurnBug(s, b, side, env).s) == Total(s) - env.turn
  {
    hide Turn, Agreement, Total;
    MemberOf(s, b);
    SpendSteps(s, b, env.turn);
    SpendKeeps(s, b, env.turn);
    var r := Spend(s, b, env.turn);
    if r.end.Success? {
      var row := r.s.rows[b];
      BugAlive(r.s, b);
      UpdateSteps(r.s, b, row.(orientation := Turn(row.orientation, side)));
    }
  }

  lemma BugAlive(s: Sim, b: nat)
    requires Sound(s) && b in s.bugs
    ensures b in s.rows && s.rows[b].kind.Bug? && s.rows[b].energy > 0
  {
    MemberOf(s, b);
  }

  /** The part of an attack after its fee: the target pays, or another than the attacker dies, and
      the attacker is still there. */
  lemma HitSteps(s: Sim, b: nat, damage: Energy, now: Time)
    requires Sound(s) && b in s.bugs && b in s.rows
    requires FrontOf(s, b) in s.grid && !s.grid[FrontOf(s, b)].kind.Food?
    ensures var t := s.grid[FrontOf(s, b)].id;
            && t in s.rows
            && Steps(s, b, Spend(s, t, damage).s)
            && (t != b ==> Steps(s, b, Kill(s, t, now)))
  {
    hide Agreement, Total, Kill, Front;
    var t := s.grid[FrontOf(s, b)].id;
    BugAlive(s, b);
    CellOf(s, FrontOf(s, b));
    SpendKeeps(s, t, damage);
    KillKeeps(s, t, now);
    MemberOf(Spend(s, t, damage).s, b);
    MemberOf(Kill(s, t, now), b);
  }

  /** However an attack ends, matter has not grown and the attacker is still there. */
  lemma AttackSteps(s: Sim, b: nat, energy: Energy, damage: Energy, fault: bool, env: Env)
    requires Sound(s) && b in s.bugs
    ensures Steps(s, b, Attack(s, b, energy, damage, fault, env).s)
  {
    hide Agreement, Total, FrontOf, Kill;
    SpendSteps(s, b, env.attack);
    var r := Spend(s, b, env.attack);
    if r.end.Success? && FrontOf(r.s, b) in r.s.grid && !r.s.grid[FrontOf(r.s, b)].kind.Food? {
      HitSteps(r.s, b, damage, env.now);
      var t := r.s.grid[FrontOf(r.s, b)].id;
      var hit := Spend(r.s, t, damage);
      SpendSteps(hit.s, b, energy);
      if t != b {
        SpendSteps(Kill(r.s, t, env.now), b, energy);
      }
    }
  }

  /** The tables refuse an attack exactly when it would make a bug its own killer, which takes a world
      one cell wide the way the bug looks. */
  lemma AttackRefused(s: Sim, b: nat, energy: Energy, damage: Energy, fault: bool, env: Env)
    requires Sound(s) && b in s.bugs
    ensures b in s.rows
    ensures Attack(s, b, energy, damage, fault, env).end.DatabaseError? <==>
            && FrontOf(s, b) == s.rows[b].position
            && env.attack < s.rows[b].energy as int <= env.attack as int + damage as int
    ensures FrontOf(s, b) == s.rows[b].position ==> s.size.x == 1 || s.size.y == 1
  {
    hide Agreement, Total, Front, Kill;
    BugAlive(s, b);
    MemberOf(s, b);
    CellIsOne(s, FrontOf(s, b), b);
    if s.size.x >= 2 && s.size.y >= 2 {
      FrontIsOther(s.rows[b].position, s.rows[b].orientation, s.size);
    }
  }

  lemma CellIsOne(s: Sim, p: Position, b: nat)
    requires Agreement(s) && b in s.rows
    ensures p in s.grid ==> (s.grid[p].id == b <==> s.rows[b].position == p)
  {
  }

  /** A blow that lands: the attacker has paid the fee and the energy it used; the target has lost
      exactly the damage, or has become food of its size where it stood; nothing else changed. */
  predicate Struck(s: Sim, b: nat, n: Sim, energy: Energy, damage: Energy, env: Env) {
    && IsSize(s.size) && Agreement(s) && Agreement(n)
    && b in s.rows && b in n.rows && FrontOf(s, b) in s.grid
    && var front := FrontOf(s, b);
       var t := s.grid[front].id;
       var paid := env.attack + energy + if t == b then damage as int else 0;
       && t in s.rows && s.rows[b].energy > paid
       && n.rows[b] == s.rows[b].(energy := s.rows[b].energy - paid)
       && (t != b ==>
             if s.rows[t].energy > damage then t in n.rows && n.rows[t] == s.rows[t].(energy := s.rows[t].energy - damage)
             else t !in n.rows && FoodOf(n, front, s.rows[t].size, env.now))
       && (forall q :: q in s.rows && q != b && q != t ==> q in n.rows && n.rows[q] == s.rows[q])
       && Total(n) == Total(s) - env.attack - energy - Words.Min(damage, s.rows[t].energy)
  }

  /** Food of this size, from now on, lies on a cell. */
  predicate FoodOf(s: Sim, p: Position, size: Energy, now: Time) {
    && p in s.grid && s.grid[p].kind.Food? && s.grid[p].id in s.rows
    && var row := s.rows[s.grid[p].id];
       row.kind.Food? && row.position == p && row.size == size && row.time == now
  }

  /** The state after the fee and the hit, when the attacker survives it. */
  function AfterHit(s: Sim, b: nat, t: nat, damage: Energy, env: Env): Sim
    requires b in s.rows && t in s.rows
  {
    var paid := Spend(s, b, env.attack).s;
    if paid.rows[t].energy <= damage then Kill(paid, t, env.now) else Spend(paid, t, damage).s
  }

  lemma HitStruck(s: Sim, b: nat, damage: Energy, env: Env)
    requires Sound(s) && b in s.bugs && b in s.rows && s.rows[b].energy > env.attack
    requires FrontOf(s, b) in s.grid && !s.grid[FrontOf(s, b)].kind.Food?
    requires s.grid[FrontOf(s, b)].id == b ==> s.rows[b].energy > env.attack + damage as int
    ensures var t := s.grid[FrontOf(s, b)].id;
            && t in s.rows
            && var n := AfterHit(s, b, t, damage, env);
               Struck(s, b, n, 0, damage, env) && Sound(n) && b in n.bugs
  {
    hide Agreement, Total, Front, Kill, Alive, Sound;
    SizeOf(s);
    BugAlive(s, b);
    SpendKeeps(s, b, env.attack);
    var r := Spend(s, b, env.attack);
    HitSteps(r.s, b, damage, env.now);
    var front := FrontOf(r.s, b);
    CellOf(s, front);
    var t := r.s.grid[front].id;
    SpendKeeps(r.s, t, damage);
    SizeOf(AfterHit(s, b, t, damage, env));
    if r.s.rows[t].energy <= damage {
      KillKeeps(r.s, t, env.now);
      KillLeavesFood(r.s, t, env.now);
    }
  }

  lemma StruckPays(s: Sim, b: nat, n: Sim, energy: Energy, damage: Energy, env: Env)
    requires Struck(s, b, n, 0, damage, env) && Sound(n) && b in n.bugs && n.rows[b].energy > energy
    ensures Struck(s, b, Spend(n, b, energy).s, energy, damage, env)
  {
    hide Agreement, Total, Front, Alive, Sound, FoodOf;
    BugAlive(n, b);
    SpendKeeps(n, b, energy);
    SizeOf(Spend(n, b, energy).s);
    var t := s.grid[FrontOf(s, b)].id;
    if t != b && s.rows[t].energy <= damage {
      FoodStays(n, b, energy, FrontOf(s, b), s.rows[t].size, env.now);
    }
  }

  lemma FoodStays(n: Sim, b: nat, energy: Energy, p: Position, size: Energy, now: Time)
    requires b in n.rows && !n.rows[b].kind.Food? && FoodOf(n, p, size, now)
    ensures FoodOf(Spend(n, b, energy).s, p, size, now)
  {
  }

  /** When an attack ends how: with an action error when the cell in front is empty or holds food; with
      an error of the database when the bug would kill itself; with that of the event when a bug that
      survives cannot be told; with the death of the attacker when it cannot pay the fee, or has hit
      and cannot pay what it used; and otherwise well. Eggs and bugs are hit alike, and whoever ends
      after the hit has struck, for what it used or for the fee alone. */
  lemma AttackEnds(s: Sim, b: nat, energy: Energy, damage: Energy, fault: bool, env: Env)
    requires Sound(s) && b in s.bugs
    ensures b in s.rows
    ensures var r, row, front := Attack(s, b, energy, damage, fault, env), s.rows[b], FrontOf(s, b);
            if row.energy <= env.attack then r == Result(s, BugDeath)
            else if front !in s.grid || s.grid[front].kind.Food? then
              r == Result(s.(rows := s.rows[b := row.(energy := row.energy - env.attack)]), ActionError)
            else if front == row.position && row.energy - env.attack <= damage then r.end.DatabaseError?
            else
              var t := s.grid[front].id;
              && t in s.rows
              && var survives := t == b || s.rows[t].energy > damage;
                 var left := row.energy - env.attack - if t == b then damage as int else 0;
                 if s.grid[front].kind.Bug? && survives && fault then
                   r.end.EventFault? && Struck(s, b, r.s, 0, damage, env)
                 else if left <= energy then r.end.BugDeath? && Struck(s, b, r.s, 0, damage, env)
                 else r.end.Success? && Struck(s, b, r.s, energy, damage, env)
  {
    hide Agreement, Total, Front, Kill, Alive, Struck;
    BugAlive(s, b);
    var front := FrontOf(s, b);
    if s.rows[b].energy > env.attack && front in s.grid && !s.grid[front].kind.Food? {
      CellIsOne(s, front, b);
      CellOf(s, front);
      var t := s.grid[front].id;
      if t != b || s.rows[b].energy > env.attack + damage as int {
        HitStruck(s, b, damage, env);
        var n := AfterHit(s, b, t, damage, env);
        StruckLeft(s, b, n, damage, env);
        if n.rows[b].energy > energy {
          StruckPays(s, b, n, energy, damage, env);
        }
      }
    }
  }

  lemma AttackMeans(s: Sim, b: nat, energy: Energy, damage: Energy, fault: bool, env: Env)
    requires Sound(s) && b in s.bugs
    requires Attack(s, b, energy, damage, fault, env).end.Success?
    ensures Struck(s, b, Attack(s, b, energy, damage, fault, env).s, energy, damage, env)
  {
    hide Attack, Struck;
    AttackEnds(s, b, energy, damage, fault, env);
  }

  lemma StruckLeft(s: Sim, b: nat, n: Sim, damage: Energy, env: Env)
    requires Struck(s, b, n, 0, damage, env)
    ensures b in n.rows
    ensures n.rows[b].energy == s.rows[b].energy - env.attack - if s.grid[FrontOf(s, b)].id == b then damage as int else 0
  {
    hide Agreement, Total, Front;
  }

  lemma SizeOf(s: Sim)
    requires Sound(s)
    ensures IsSize(s.size) && Agreement(s)
  {
  }

  /** What is killed lies as food on the cell where it stood. */
  lemma KillLeavesFood(s: Sim, r: nat, now: Time)
    requires r in s.rows
    ensures var n, row := Kill(s, r, now), s.rows[r];
            && row.position in n.grid && n.grid[row.position] == Element(s.next, Food)
            && s.next in n.rows && n.rows[s.next] == Row(Food, row.position, row.orientation, 0, row.size, now, None)
  {
    hide Without;
  }

  /** Eating food moves its size to the bug; an egg becomes food. */
  lemma EatSteps(s: Sim, b: nat, env: Env)
    requires Sound(s) && b in s.bugs
    ensures Steps(s, b, Eat(s, b, env).s)
  {
    hide Agreement, Total, Kill, Delete, Front;
    BugAlive(s, b);
    SpendKeeps(s, b, env.eat);
    SpendSteps(s, b, env.eat);
    var r := Spend(s, b, env.eat);
    if r.end.Success? && FrontOf(r.s, b) in r.s.grid && !r.s.grid[FrontOf(r.s, b)].kind.Bug? {
      CellOf(r.s, FrontOf(r.s, b));
      var t := r.s.grid[FrontOf(r.s, b)].id;
      if r.s.rows[t].kind.Egg? {
        KillKeeps(r.s, t, env.now);
        MemberOf(Kill(r.s, t, env.now), b);
      } else if Storable(Plus(r.s.rows[b].energy, r.s.rows[t].size)) {
        EatFoodSteps(r.s, b, t);
      }
    }
  }

  /** A meal: of food, its size has moved to the bug and the cell is free; of an egg, the egg has
      become food and the bug has gained nothing. The fee is all the matter that is gone, but for
      the energy of the egg, unless the sum wrapped. */
  lemma EatMeans(s: Sim, b: nat, env: Env)
    requires Sound(s) && b in s.bugs && Eat(s, b, env).end.Success?
    ensures b in s.rows && FrontOf(s, b) in s.grid
    ensures var n, front := Eat(s, b, env).s, FrontOf(s, b);
            var t := s.grid[front].id;
            && b in n.rows && t in s.rows && t !in n.rows && Agreement(n)
            && (if s.rows[t].kind.Food? then
                  front !in n.grid && n.rows[b].energy == Plus(s.rows[b].energy - env.eat, s.rows[t].size)
                else front in n.grid && n.grid[front].kind.Food? && n.rows[b].energy == s.rows[b].energy - env.eat)
            && (forall q :: q in s.rows && q != b && q != t ==> q in n.rows && n.rows[q] == s.rows[q])
            && (s.rows[t].kind.Egg? ==> Total(n) == Total(s) - env.eat - s.rows[t].energy)
            && (s.rows[t].kind.Food? && s.rows[b].energy as int - env.eat as int + s.rows[t].size as int < WORD_LIMIT ==>
                  Total(n) == Total(s) - env.eat)
  {
    hide Agreement, Total, Front, Kill, Delete, Plus;
    BugAlive(s, b);
    SpendKeeps(s, b, env.eat);
    var r := Spend(s, b, env.eat);
    BugAlive(r.s, b);
    var front := FrontOf(r.s, b);
    CellOf(s, front);
    CellOf(r.s, front);
    var t := r.s.grid[front].id;
    if r.s.rows[t].kind.Egg? {
      KillKeeps(r.s, t, env.now);
      KillLeavesFood(r.s, t, env.now);
    } else {
      EatFoodMeans(r.s, b, t);
    }
  }

  /** When a meal ends how: the bug dies when it cannot pay; there is an action error when the cell in
      front is empty or a bug stands there; an egg can always be bitten, and food can be eaten unless
      the energies add up, in 32 bits, to nothing or to what the signed column does not hold. */
  lemma EatEnds(s: Sim, b: nat, env: Env)
    requires Sound(s) && b in s.bugs
    ensures b in s.rows
    ensures var r, row, front := Eat(s, b, env), s.rows[b], FrontOf(s, b);
            if row.energy <= env.eat then r == Result(s, BugDeath)
            else if front !in s.grid || s.grid[front].kind.Bug? then r == Result(Charged(s, b, env.eat), ActionError)
            else
              var t := s.grid[front].id;
              && t in s.rows
              && var fed := (row.energy as int - env.eat as int + s.rows[t].size as int) % 0x1_0000_0000;
                 if s.grid[front].kind.Egg? then
                   r.end.Success? && b in r.s.rows && r.s.rows[b] == row.(energy := row.energy - env.eat)
                   && FoodOf(r.s, front, s.rows[t].size, env.now)
                 else if fed == 0 || fed >= 0x8000_0000 then r == Result(Charged(s, b, env.eat), DatabaseError)
                 else
                   r.end.Success? && b in r.s.rows && r.s.rows[b] == row.(energy := fed) && front !in r.s.grid
  {
    hide Agreement, Total, Front, Kill, Delete, Without, Alive;
    BugAlive(s, b);
    SpendKeeps(s, b, env.eat);
    var r := Spend(s, b, env.eat);
    var front := FrontOf(s, b);
    if r.end.Success? && front in s.grid && !s.grid[front].kind.Bug? {
      BugAlive(r.s, b);
      CellOf(s, front);
      CellOf(r.s, front);
      var t := s.grid[front].id;
      if s.grid[front].kind.Egg? {
        KillKeeps(r.s, t, env.now);
        KillLeavesFood(r.s, t, env.now);
      } else if Storable(Plus(r.s.rows[b].energy, r.s.rows[t].size)) {
        EatFoodMeans(r.s, b, t);
      }
    }
  }

  lemma EatFoodMeans(s: Sim, b: nat, t: nat)
    requires Sound(s) && b in s.bugs && b in s.rows && t in s.rows && s.rows[t].kind.Food?
    requires Storable(Plus(s.rows[b].energy, s.rows[t].size))
    ensures var fed := Plus(s.rows[b].energy, s.rows[t].size);
            var n := Delete(Update(s, b, s.rows[b].(energy := fed)), t);
            && Agreement(n) && n.rows == s.rows[b := s.rows[b].(energy := fed)] - {t}
            && n.grid == s.grid - {s.rows[t].position}
            && Total(n) == Total(s) - s.rows[b].energy - s.rows[t].size + fed
            && (s.rows[b].energy as int + s.rows[t].size as int < WORD_LIMIT ==> fed == s.rows[b].energy + s.rows[t].size)
  {
    hide Agreement, Total, Delete, Alive, Plus;
    BugAlive(s, b);
    SumFits(s.rows[b].energy, s.rows[t].size);
    var row := s.rows[b].(energy := Plus(s.rows[b].energy, s.rows[t].size));
    var u := Update(s, b, row);
    TotalUpdated(s, b, row);
    TotalDeleted(u, t);
    DeletedParts(u, t);
  }

  lemma SumFits(a: Word, b: Word)
    ensures a as int + b as int < WORD_LIMIT ==> Plus(a, b) == a + b
  {
  }

  /** No energy comes out of nothing; a sum past 32 bits would lose some. */
  lemma EatFoodSteps(s: Sim, b: nat, t: nat)
    requires Sound(s) && b in s.bugs && b in s.rows && t in s.rows && s.rows[t].kind.Food?
    requires Storable(Plus(s.rows[b].energy, s.rows[t].size))
    ensures var row := s.rows[b];
            Steps(s, b, Delete(Update(s, b, row.(energy := Plus(row.energy, s.rows[t].size))), t))
  {
    hide Agreement, Total, Delete;
    BugAlive(s, b);
    var row := s.rows[b].(energy := Plus(s.rows[b].energy, s.rows[t].size));
    SumWraps(s.rows[b].energy, s.rows[t].size);
    var u := Update(s, b, row);
    UpdateAlive(s, b, row);
    TotalUpdated(s, b, row);
    TotalDeleted(u, t);
    DeleteAlive(u, t);
    MemberOf(Delete(u, t), b);
  }

  lemma SumWraps(a: Word, b: Word)
    ensures Plus(a, b) <= a as int + b as int
  {
  }

  lemma DeleteAlive(s: Sim, r: nat)
    requires Alive(s) && r in s.rows
    ensures var n := Delete(s, r); Alive(n) && n.rows == s.rows - {r} && n.size == s.size
  {
    hide Without;
  }

  /** The egg is placed: what that does to matter, and that the layer is still there. */
  lemma PlaceSteps(s: Sim, b: nat, row: Row)
    requires Sound(s) && b in s.bugs && b in s.rows
    requires row.kind.Egg? && row.energy > 0 && Inside(row.position, s.size) && row.position !in s.grid
    ensures var n := Insert(s, row);
            && Sound(n) && n.size == s.size && n.bugs == s.bugs && b in n.rows && n.rows[b] == s.rows[b]
            && Total(n) == Total(s) + row.size + row.energy
  {
    NextIsNew(s);
    InsertAlive(s, row);
    hide Agreement, Total, Inside;
    TotalInserted(s, row);
  }

  lemma InsertAlive(s: Sim, row: Row)
    requires Alive(s) && row.energy > 0
    ensures Alive(Insert(s, row))
  {
  }

  /** Laying an egg and living changes matter by exactly the fee. A layer that dies before the egg is
      placed takes nothing into the world; one that dies after leaves at most the code of the egg
      behind, less the fee, once its own energy is gone. */
  lemma LaySteps(s: Sim, b: nat, energy: Energy, code: Energy, env: Env)
    requires Sound(s) && b in s.bugs
    ensures b in s.rows
    ensures var r := LayEgg(s, b, energy, code, env);
            && Sound(r.s) && r.s.size == s.size && b in r.s.bugs
            && b in r.s.rows && r.s.rows[b].kind.Bug?
            && (r.end.Success? ==> Total(r.s) == Total(s) - env.egg)
            && (r.end.ActionError? || r.end.DatabaseError? ==> Total(r.s) == Total(s) - env.egg)
            && (r.end.BugDeath? && r.s.next == s.next ==> Total(r.s) <= Total(s))
            && (r.end.BugDeath? && r.s.next != s.next ==>
                  Total(r.s) - r.s.rows[b].energy ==
                  Total(s) + code - env.egg - LostEnergy(s.rows[b].energy - env.egg, energy))
            && !r.end.EventFault?
  {
    hide Agreement, Total, Front, Turn, Insert, CodeFits;
    BugAlive(s, b);
    SpendKeeps(s, b, env.egg);
    var r := Spend(s, b, env.egg);
    var front := FrontOf(r.s, b);
    if r.end.Success? && energy != 0 && front !in r.s.grid && CodeFits(code) {
      BugAlive(r.s, b);
      SpendKeeps(r.s, b, code);
      var paid := Spend(r.s, b, code);
      if paid.end.Success? {
        MemberOf(paid.s, b);
        FrontInside(paid.s.rows[b].position, paid.s.rows[b].orientation, s.size);
        var row := Laid(r.s.rows[b], front, energy, code, env.now);
        PlaceSteps(paid.s, b, row);
        NextMoves(paid.s, row);
        SpendKeeps(Insert(paid.s, row), b, energy);
      }
    }
  }

  /** The tables refuse an egg exactly when a layer that has paid the fee could place it and its
      mutated code has lost all its words, or is not made of words. */
  lemma LayRefused(s: Sim, b: nat, energy: Energy, code: Energy, env: Env)
    requires Sound(s) && b in s.bugs
    ensures b in s.rows
    ensures LayEgg(s, b, energy, code, env).end.DatabaseError? <==>
            s.rows[b].energy > env.egg && energy != 0 && FrontOf(s, b) !in s.grid && !(code > 0 && code % 4 == 0)
  {
    hide Agreement, Total, Front, Turn, Insert;
    BugAlive(s, b);
  }

  /** What of the energy a layer had left does not go into an egg it dies of. */
  function LostEnergy(had: int, energy: Energy): (lost: nat)
    ensures lost == 0 <==> had <= energy
  {
    if energy < had then had - energy else 0
  }

  lemma NextMoves(s: Sim, row: Row)
    ensures Insert(s, row).next == s.next + 1
  {
  }

  /** An egg laid by a bug that lives on: in front, looking at its father, with all the energy it
      was to have (the smaller of two in the source never bites), paid for by the father. */
  predicate HasLaid(s: Sim, b: nat, n: Sim, energy: Energy, code: Energy, env: Env) {
    && IsSize(s.size) && n.size == s.size && b in s.rows && b in n.rows && s.next in n.rows
    && s.rows[b].energy > env.egg + code + energy
    && n.rows[b] == s.rows[b].(energy := s.rows[b].energy - env.egg - code - energy)
    && var front, egg := FrontOf(s, b), n.rows[s.next];
       && front !in s.grid && front in n.grid && n.grid[front] == Element(s.next, Egg)
       && egg.kind.Egg? && egg.position == front && egg.energy == energy && egg.size == code
       && egg.time == env.now && egg.lastAction == None
       && FrontOf(n, s.next) == s.rows[b].position
  }

  lemma LayMeans(s: Sim, b: nat, energy: Energy, code: Energy, env: Env)
    requires Sound(s) && b in s.bugs && LayEgg(s, b, energy, code, env).end.Success?
    ensures HasLaid(s, b, LayEgg(s, b, energy, code, env).s, energy, code, env)
  {
    hide Agreement, Total, Front, Turn;
    BugAlive(s, b);
    NextIsNew(s);
    var r := Spend(s, b, env.egg);
    var front := FrontOf(r.s, b);
    MemberOf(s, b);
    EggFacesFather(s.rows[b].position, s.rows[b].orientation, s.size);
  }

  /** When laying ends how: the layer dies when it cannot pay the fee, the code, or the energy, in this
      order; there is an action error when the egg is to get nothing or the cell in front is taken; the
      tables refuse a code that is empty or not of whole words; otherwise the egg is laid. Only a layer
      that dies of the energy leaves its egg, with the energy it had left or was to give, if less. */
  lemma LayEnds(s: Sim, b: nat, energy: Energy, code: Energy, env: Env)
    requires Sound(s) && b in s.bugs
    ensures b in s.rows
    ensures var r, row, front := LayEgg(s, b, energy, code, env), s.rows[b], FrontOf(s, b);
            if row.energy <= env.egg then r == Result(s, BugDeath)
            else if energy == 0 || front in s.grid then r == Result(Charged(s, b, env.egg), ActionError)
            else if code == 0 || code % 4 != 0 then r == Result(Charged(s, b, env.egg), DatabaseError)
            else if row.energy - env.egg <= code then r == Result(Charged(s, b, env.egg), BugDeath)
            else if row.energy - env.egg - code <= energy then
              && r.end.BugDeath? && b in r.s.rows && r.s.rows[b] == row.(energy := row.energy - env.egg - code)
              && front in r.s.grid && r.s.grid[front] == Element(s.next, Egg) && s.next in r.s.rows
              && r.s.rows[s.next].energy == Words.Min(row.energy - env.egg, energy) && r.s.rows[s.next].size == code
            else r.end.Success? && HasLaid(s, b, r.s, energy, code, env)
  {
    hide Agreement, Total, Front, Turn, Alive, HasLaid;
    BugAlive(s, b);
    NextIsNew(s);
    if LayEgg(s, b, energy, code, env).end.Success? {
      LayMeans(s, b, energy, code, env);
    }
  }

  lemma FrontInside(p: Position, o: Orientation, size: Position)
    requires Inside(p, size)
    ensures Inside(Front(p, o, size), size)
  {
    MoveUndone(p, o, Forward, size);
  }
}
