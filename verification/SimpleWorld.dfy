/** The simulation as the object it is in the source: the actions and the phases update the grid,
    the rows and the lists in place, each proved to do what `Actions` and `Cycle` say. */
module SimpleWorldObject {
  import opened Options
  import opened Words
  import opened Movement
  import opened WorldModel
  import opened Simulation
  import A = Actions
  import C = Cycle

  /** A place where food, or eggs, come up every so often while there are too few. */
  datatype Source = Source(start: Position, end: Position, frequency: Time, max: HalfWord, size: Energy, energy: Energy)

  /** Food in a region counts food; eggs are laid where there are too few bugs. */
  datatype Crop = Foods | Eggs

  function Counted(crop: Crop): Kind {
    match crop case Foods => Food case Eggs => Bug
  }

  function Grown(crop: Crop): Kind {
    match crop case Foods => Food case Eggs => Egg
  }

  /** What the tables demand of a source: its region is inside the world and has cells. Only food has
      to have a period. */
  predicate Fertile(crop: Crop, f: Source, size: Position) {
    && f.start.x < f.end.x <= size.x && f.start.y < f.end.y <= size.y
    && (crop.Foods? ==> f.frequency > 0)
  }

  /** Elements of a kind in the region of a source. */
  function CountIn(grid: Grid, f: Source, kind: Option<Kind>): nat {
    NumberIn(grid, f.start, f.end, kind)
  }

  predicate Ripe(f: Source, now: Time) {
    f.frequency > 0 && now % f.frequency == 0
  }

  /** A source that is due has as much food in its region as it wants. */
  predicate Served(grid: Grid, f: Source, now: Time) {
    Ripe(f, now) ==> CountIn(grid, f, Some(Food)) >= f.max
  }

  /** How many eggs a source lays that is due: what there are bugs too few, counted in sixteen bits. */
  function EggsOf(grid: Grid, f: Source, now: Time): nat {
    var bugs := CountIn(grid, f, Some(Bug)) % 0x1_0000;
    if Ripe(f, now) && bugs < f.max then f.max - bugs else 0
  }

  function EggsDue(grid: Grid, sources: seq<Source>, now: Time): nat {
    if sources == [] then 0
    else EggsDue(grid, sources[..|sources| - 1], now) + EggsOf(grid, sources[|sources| - 1], now)
  }

  /** What a new egg is given by chance: where it looks and the length of its mutated code. */
  datatype Draw = Draw(orientation: Orientation, code: Energy)

  function Sprouted(crop: Crop, f: Source, p: Position, d: Draw, now: Time): Row {
    match crop
    case Foods => Row(Food, p, North, 0, f.size, now, None)
    case Eggs => Row(Egg, p, d.orientation, f.energy, d.code, now, None)
  }

  /** A row that a source gives: on a cell of its region, new, food of its size, or an egg with its energy
      that looks and is coded as drawn. */
  predicate Springs(row: Row, crop: Crop, f: Source, d: Draw, now: Time) {
    && f.start.x <= row.position.x < f.end.x && f.start.y <= row.position.y < f.end.y
    && row.time == now && row.lastAction == None
    && (crop.Foods? ==> row.kind == Food && row.size == f.size && row.energy == 0)
    && (crop.Eggs? ==>
          row.kind == Egg && row.energy == f.energy && row.size == d.code && row.orientation == d.orientation)
  }

  /** Every row is given by the source with the draw of its turn. */
  predicate AllSpring(rows: seq<Row>, crop: Crop, f: Source, draw: nat -> Draw, now: Time) {
    forall k :: 0 <= k < |rows| ==> Springs(rows[k], crop, f, draw(k), now)
  }

  /** A row given by a source that is due. */
  ghost predicate Comes(row: Row, crop: Crop, sources: seq<Source>, draw: nat -> nat -> Draw, now: Time) {
    exists k, i :: 0 <= k < |sources| && Ripe(sources[k], now) && Springs(row, crop, sources[k], draw(k)(i), now)
  }

  lemma AllCome(rows: seq<Row>, crop: Crop, sources: seq<Source>, k: nat, draw: nat -> nat -> Draw, now: Time)
    requires k < |sources| && Ripe(sources[k], now) && AllSpring(rows, crop, sources[k], draw(k), now)
    ensures forall row :: row in rows ==> Comes(row, crop, sources, draw, now)
  {
    hide Springs, Ripe;
  }

  lemma OneMoreSprings(rows: seq<Row>, row: Row, crop: Crop, f: Source, draw: nat -> Draw, now: Time)
    requires AllSpring(rows, crop, f, draw, now) && Springs(row, crop, f, draw(|rows|), now)
    ensures AllSpring(rows + [row], crop, f, draw, now)
  {
    hide Springs;
  }

  /** All that the programs of the bugs and the random draws decide in a cycle. */
  datatype Choice = Choice(draw: nat -> nat -> Draw, change: nat -> Option<C.Change>, fault: nat -> bool,
                           turn: nat -> C.Turn)

  /** How a source ends: it gave all that was missing, found its region full, never stops looking for a
      free cell, gave something the tables refuse, or has the program divide by its period of zero.
      Nothing catches the last two. */
  datatype Harvest = Grew | Full | Stuck | Barred | Crashed

  /** What the tables take of an element but for its code. */
  predicate Priced(crop: Crop, f: Source) {
    match crop case Foods => f.size < 0x8000_0000 case Eggs => A.Storable(f.energy)
  }

  predicate Coded(crop: Crop, d: Draw) {
    crop.Eggs? ==> A.CodeFits(d.code)
  }

  /** The tables take what a source gives the first `n` times. */
  predicate Taken(crop: Crop, f: Source, draw: nat -> Draw, n: nat) {
    forall k :: 0 <= k < n ==> Coded(crop, draw(k)) && Priced(crop, f)
  }

  /** What ends the program, or keeps it for ever, in a source: no period, a full region whose count
      is cut, or an element the tables refuse. */
  ghost predicate Halts(crop: Crop, f: Source, draw: nat -> Draw, grid: Grid, now: Time) {
    || f.frequency == 0
    || (Ripe(f, now)
        && ((IsFull(grid, f.start, f.end) && Area(f.start, f.end) >= 0x1_0000)
            || exists k :: !Coded(crop, draw(k)) || !Priced(crop, f)))
  }

  ghost predicate HaltsIn(crop: Crop, sources: seq<Source>, draw: nat -> nat -> Draw, grid: Grid, now: Time) {
    exists k :: 0 <= k < |sources| && Halts(crop, sources[k], draw(k), grid, now)
  }

  /** Whether an element from outside comes in, or which error is thrown. */
  datatype Entry = Entered | Refused | Unreadable

  lemma FertileRipe(crop: Crop, f: Source, size: Position, now: Time)
    requires Fertile(crop, f, size)
    ensures f.frequency > 0 ==> (Ripe(f, now) <==> now % f.frequency == 0)
    ensures f.frequency == 0 ==> crop.Eggs?
  {
  }

  lemma InsertGrid(s: Sim, row: Row)
    ensures Insert(s, row).grid == s.grid[row.position := Element(s.next, row.kind)]
  {
  }

  /** Sprouting takes nothing out of a region. */
  lemma {:induction false} SproutGrows(s: Sim, rows: seq<Row>, f: Source, kind: Option<Kind>)
    ensures CountIn(C.Sprout(s, rows).grid, f, kind) >= CountIn(s.grid, f, kind)
    decreases |rows|
  {
    hide Insert, NumberIn;
    if rows == [] {
    } else {
      if C.CanSprout(s, rows[0]) {
        InsertGrid(s, rows[0]);
        NumberAdds(s.grid, rows[0].position, Element(s.next, rows[0].kind), f.start, f.end, kind);
        SproutGrows(Insert(s, rows[0]), rows[1..], f, kind);
      } else {
        SproutGrows(s, rows[1..], f, kind);
      }
    }
  }

  /** Sprouting brings no bugs. */
  lemma {:induction false} SproutHatchesNone(s: Sim, rows: seq<Row>, f: Source, now: Time)
    ensures EggsOf(C.Sprout(s, rows).grid, f, now) == EggsOf(s.grid, f, now)
    decreases |rows|
  {
    hide Insert, NumberIn, Ripe;
    if rows == [] {
    } else {
      if C.CanSprout(s, rows[0]) {
        InsertGrid(s, rows[0]);
        NumberAdds(s.grid, rows[0].position, Element(s.next, rows[0].kind), f.start, f.end, Some(Bug));
        SproutHatchesNone(Insert(s, rows[0]), rows[1..], f, now);
      } else {
        SproutHatchesNone(s, rows[1..], f, now);
      }
    }
  }

  /** A source has laid its eggs: there are as many more in its region. */
  predicate Laying(before: Grid, after: Grid, f: Source, now: Time) {
    CountIn(after, f, Some(Egg)) >= CountIn(before, f, Some(Egg)) + EggsOf(before, f, now)
  }

  /** A source was due when its region was full: the ones after it wait for the next cycle. */
  ghost predicate StopsAt(grid: Grid, sources: seq<Source>, k: nat, now: Time) {
    k < |sources| ==> Ripe(sources[k], now) && IsFull(grid, sources[k].start, sources[k].end)
  }

  /** The first `laid` egg sources have laid their eggs, and the first `grown` of the others have as much food
      as they want. */
  ghost predicate SownTo(before: Grid, after: Grid, spawns: seq<Source>, resources: seq<Source>,
                         laid: nat, grown: nat, now: Time) {
    && laid <= |spawns| && StopsAt(after, spawns, laid, now)
    && (forall k :: 0 <= k < laid ==> Laying(before, after, spawns[k], now))
    && grown <= |resources| && StopsAt(after, resources, grown, now)
    && (forall k :: 0 <= k < grown ==> Served(after, resources[k], now))
  }

  /** Every source has given what it owes, up to one that is due in a full region. */
  ghost predicate Sown(before: Grid, after: Grid, spawns: seq<Source>, resources: seq<Source>, now: Time) {
    exists laid: nat, grown: nat :: SownTo(before, after, spawns, resources, laid, grown, now)
  }

  /** What is full stays full. */
  lemma {:induction false} FullStays(s: Sim, rows: seq<Row>, sources: seq<Source>, k: nat, now: Time)
    requires StopsAt(s.grid, sources, k, now)
    ensures StopsAt(C.Sprout(s, rows).grid, sources, k, now)
    decreases |rows|
  {
    hide Insert, Ripe;
    if rows == [] {
    } else {
      if C.CanSprout(s, rows[0]) {
        InsertGrid(s, rows[0]);
        FullStays(Insert(s, rows[0]), rows[1..], sources, k, now);
      } else {
        FullStays(s, rows[1..], sources, k, now);
      }
    }
  }

  /** The input of a cycle is what the sources, the draws and the programs decide: the clock goes on by one,
      what comes up is given by sources that are due, and they have given what they owe, or one of them
      halts the program. */
  ghost predicate Follows(s: Sim, input: C.Input, spawns: seq<Source>, resources: seq<Source>,
                          choice: Choice, env: A.Env) {
    && input.env == env.(now := Plus(env.now, 1)) && input.timer == (input.env.now % 64 == 0)
    && input.change == choice.change && input.fault == choice.fault && input.turn == choice.turn
    && (forall row :: row in input.sprouts ==>
          Comes(row, Eggs, spawns, choice.draw, env.now) || Comes(row, Foods, resources, choice.draw, env.now))
    && var came := C.Sprout(s, input.sprouts).grid;
       if input.halted then
         HaltsIn(Eggs, spawns, choice.draw, came, env.now) || HaltsIn(Foods, resources, choice.draw, came, env.now)
       else Sown(s.grid, came, spawns, resources, env.now)
  }

  /** The inputs of a run are those of its choices, one cycle each, from where the cycle before ended. */
  ghost predicate AllFollow(s: Sim, inputs: seq<C.Input>, spawns: seq<Source>, resources: seq<Source>,
                            choices: seq<Choice>, env: A.Env)
    requires A.Sound(s) && C.Regular(inputs)
    decreases |inputs|
  {
    inputs == []
    || (var k := |inputs| - 1;
        && k < |choices| && C.Regular(inputs[..k])
        && AllFollow(s, inputs[..k], spawns, resources, choices, env)
        && Follows(C.Run(s, inputs[..k]).0, inputs[k], spawns, resources, choices[k], env.(now := Plus(env.now, k))))
  }

  lemma NoneFollow(s: Sim, spawns: seq<Source>, resources: seq<Source>, choices: seq<Choice>, env: A.Env)
    requires A.Sound(s)
    ensures AllFollow(s, [], spawns, resources, choices, env)
  {
  }

  lemma OneMoreFollows(s: Sim, inputs: seq<C.Input>, input: C.Input, spawns: seq<Source>, resources: seq<Source>,
                       choices: seq<Choice>, env: A.Env)
    requires A.Sound(s) && C.Regular(inputs) && C.Regular(inputs + [input]) && |inputs| < |choices|
    requires AllFollow(s, inputs, spawns, resources, choices, env)
    requires Follows(C.Run(s, inputs).0, input, spawns, resources, choices[|inputs|],
                     env.(now := Plus(env.now, |inputs|)))
    ensures AllFollow(s, inputs + [input], spawns, resources, choices, env)
  {
    hide Follows, A.Sound, C.Run;
    assert (inputs + [input])[..|inputs|] == inputs;
  }

  lemma FollowsRegularly(s: Sim, inputs: seq<C.Input>, input: C.Input, spawns: seq<Source>, resources: seq<Source>,
                         choice: Choice, env: A.Env)
    requires Follows(s, input, spawns, resources, choice, env) && C.Periods(env) && C.Regular(inputs)
    ensures C.Periods(input.env) && C.Regular(inputs + [input])
  {
  }

  lemma Later(now: Time, k: nat)
    ensures Plus(Plus(now, k), 1) == Plus(now, k + 1)
  {
  }

  /** Eggs laid stay, whatever else comes up, and a source lays the same after others have. */
  lemma LayingStays(start: Sim, before: Sim, rows: seq<Row>, more: seq<Row>, f: Source, now: Time)
    requires before == C.Sprout(start, rows)
    ensures Laying(start.grid, before.grid, f, now) ==> Laying(start.grid, C.Sprout(before, more).grid, f, now)
    ensures Laying(before.grid, C.Sprout(before, more).grid, f, now) ==>
              Laying(start.grid, C.Sprout(before, more).grid, f, now)
    ensures EggsOf(before.grid, f, now) == EggsOf(start.grid, f, now)
  {
    SproutGrows(start, rows, f, Some(Egg));
    SproutGrows(before, more, f, Some(Egg));
    SproutHatchesNone(start, rows, f, now);
  }

  lemma NothingLaid(start: Sim, rows: seq<Row>, f: Source, now: Time)
    requires !Ripe(f, now)
    ensures Laying(start.grid, C.Sprout(start, rows).grid, f, now) && EggsOf(start.grid, f, now) == 0
  {
    SproutGrows(start, rows, f, Some(Egg));
  }

  lemma DueMore(grid: Grid, sources: seq<Source>, k: nat, now: Time)
    requires k < |sources|
    ensures EggsDue(grid, sources[..k + 1], now) == EggsDue(grid, sources[..k], now) + EggsOf(grid, sources[k], now)
  {
    assert sources[..k + 1][..k] == sources[..k];
  }

  lemma Stopped(grid: Grid, sources: seq<Source>, k: nat, full: bool, now: Time)
    requires k < |sources| ==> full
    requires full ==> k < |sources| && Ripe(sources[k], now) && IsFull(grid, sources[k].start, sources[k].end)
    ensures StopsAt(grid, sources, k, now)
  {
  }

  lemma NoneDue(grid: Grid, sources: seq<Source>, now: Time)
    ensures EggsDue(grid, sources[..0], now) == 0
  {
  }

  lemma SpawnLays(before: Grid, after: Grid, f: Source, laid: nat, now: Time)
    requires var count := CountIn(before, f, Some(Bug)) % 0x1_0000;
             laid == if count < f.max then f.max - count else 0
    requires CountIn(after, f, Some(Egg)) == CountIn(before, f, Some(Egg)) + laid && Ripe(f, now)
    ensures Laying(before, after, f, now) && laid == EggsOf(before, f, now)
  {
  }

  lemma SproutServes(s: Sim, rows: seq<Row>, f: Source, now: Time)
    requires Served(s.grid, f, now)
    ensures Served(C.Sprout(s, rows).grid, f, now)
  {
    SproutGrows(s, rows, f, Some(Food));
  }

  lemma SpawnServes(before: Grid, after: Grid, f: Source, now: Time)
    requires var count := CountIn(before, f, Some(Food)) % 0x1_0000;
             CountIn(after, f, Some(Food)) == CountIn(before, f, Some(Food)) + if count < f.max then f.max - count else 0
    ensures Served(after, f, now)
  {
  }

  /** One more sprout on a free cell. */
  lemma SproutOne(s: Sim, t: Sim, rows: seq<Row>, row: Row)
    requires t == C.Sprout(s, rows) && C.CanSprout(t, row)
    ensures C.Sprout(s, rows + [row]) == Insert(t, row)
  {
    hide Insert, C.CanSprout;
    C.SproutSplit(s, rows, [row]);
  }

  /** What the tables take of a new element can sprout. */
  lemma PricedSprouts(crop: Crop, f: Source, p: Position, d: Draw, now: Time)
    requires Priced(crop, f)
    ensures var row := Sprouted(crop, f, p, d, now);
            && row.kind == Grown(crop) && row.position == p && (row.kind.Egg? ==> row.energy > 0)
            && (Within(p, f.start, f.end) ==> Springs(row, crop, f, d, now))
  {
  }

  class SimpleWorld {
    const world: World
    var rows: map<nat, Row>
    var foods: seq<nat>
    var eggs: seq<nat>
    var bugs: seq<nat>
    var next: nat

    ghost function View(): Sim
      reads this, world
    {
      Sim(world.size, world.cells, rows, foods, eggs, bugs, next)
    }

    ghost predicate Valid()
      reads this, world, world.terrain
    {
      world.Valid() && Agreement(View())
    }

    constructor (width: HalfWord, height: HalfWord)
      ensures Valid() && fresh(world) && fresh(world.terrain)
      ensures View() == Sim(Position(width, height), map[], map[], [], [], [], 0)
    {
      world := new World(width, height);
      rows, foods, eggs, bugs, next := map[], [], [], [], 0;
    }

    method Spend(r: nat, cost: Energy) returns (end: A.End)
      requires r in rows
      modifies this`rows
      ensures A.Result(View(), end) == A.Spend(old(View()), r, cost)
    {
      if rows[r].energy <= cost {
        return A.BugDeath;
      }
      rows := rows[r := rows[r].(energy := rows[r].energy - cost)];
      return A.Success;
    }

    /** Add a new element to its list and to the grid. */
    method Enter(row: Row)
      requires Valid() && Inside(row.position, world.size) && row.position !in world.cells
      modifies this, world, world.terrain
      ensures world.Valid() && View() == Insert(old(View()), row)
    {
      hide Agreement, World.Mirrored;
      match row.kind {
        case Food => foods := foods + [next];
        case Egg => eggs := eggs + [next];
        case Bug => bugs := bugs + [next];
      }
      rows := rows[next := row];
      var _ := world.Add(Element(next, row.kind), row.position);
      next := next + 1;
    }

    /** Take an element out of the grid and of its list. */
    method Leave(r: nat)
      requires Valid() && r in rows
      modifies this, world, world.terrain
      ensures world.Valid() && View() == Delete(old(View()), r)
    {
      hide Agreement, Without, Inside, World.Mirrored;
      A.MemberOf(View(), r);
      var row := rows[r];
      var _ := world.Remove(row.position);
      match row.kind {
        case Food => foods := Without(foods, r);
        case Egg => eggs := Without(eggs, r);
        case Bug => bugs := Without(bugs, r);
      }
      rows := rows - {r};
    }

    /** The element becomes food of the size of its code. */
    method Kill(r: nat, now: Time)
      requires Valid() && A.Sound(View()) && A.Living(View(), r)
      modifies this, world, world.terrain
      ensures Valid() && View() == A.Kill(old(View()), r, now)
    {
      hide Agreement, Delete, Insert, Alive, World.Mirrored;
      ghost var s := View();
      var remains := A.Remains(rows[r], now);
      A.KillKeeps(s, r, now);
      A.ReplaceRows(s, r, remains);
      A.MemberOf(s, r);
      DeleteAgrees(s, r);
      Leave(r);
      Enter(remains);
    }

    /** The egg becomes a bug. */
    method Birth(r: nat, now: Time)
      requires Valid() && A.Sound(View()) && r in rows && rows[r].kind.Egg?
      modifies this, world, world.terrain
      ensures Valid() && View() == A.Birth(old(View()), r, now)
    {
      hide Agreement, Delete, Insert, Alive, World.Mirrored;
      ghost var s := View();
      var hatched := A.Hatched(rows[r], now);
      A.BirthKeeps(s, r, now);
      A.ReplaceRows(s, r, hatched);
      A.MemberOf(s, r);
      DeleteAgrees(s, r);
      Leave(r);
      Enter(hatched);
    }

    // ----- Actions of a bug

    method FrontOf(b: nat) returns (p: Position)
      requires Valid() && b in rows && IsSize(world.size)
      ensures p == A.FrontOf(View(), b)
    {
      p := Front(rows[b].position, rows[b].orientation, world.size);
    }

    method MoveBug(b: nat, env: A.Env) returns (end: A.End)
      requires Valid() && A.Sound(View()) && b in bugs && b in rows
      modifies this, world, world.terrain
      ensures Valid() && A.Result(View(), end) == A.MoveBug(old(View()), b, env)
    {
      hide Agreement, Alive, Total, World.Mirrored, Front;
      ghost var s := View();
      A.MoveSteps(s, b, env);
      A.SpendSteps(s, b, env.move);
      end := Spend(b, env.move);
      if end.BugDeath? { return; }
      A.MemberOf(View(), b);
      var current := rows[b].position;
      var front := FrontOf(b);
      var moved := world.Relocate(current, front);
      if moved.WorldError? {
        return A.ActionError;
      }
      if current.x != front.x {
        rows := rows[b := rows[b].(position := current.(x := front.x))];
      } else {
        rows := rows[b := rows[b].(position := current.(y := front.y))];
      }
      A.FrontTurnsOneWay(current, s.rows[b].orientation, s.size);
      return A.Success;
    }

    method TurnBug(b: nat, side: Side, env: A.Env) returns (end: A.End)
      requires Valid() && A.Sound(View()) && b in bugs && b in rows
      modifies this`rows
      ensures Valid() && A.Result(View(), end) == A.TurnBug(old(View()), b, side, env)
    {
      hide Agreement, Alive, Total, World.Mirrored, Turn;
      A.TurnSteps(View(), b, side, env);
      end := Spend(b, env.turn);
      if end.BugDeath? { return; }
      rows := rows[b := rows[b].(orientation := Turn(rows[b].orientation, side))];
      return A.Success;
    }

    method Attack(b: nat, energy: Energy, damage: Energy, fault: bool, env: A.Env) returns (end: A.End)
      requires Valid() && A.Sound(View()) && b in bugs && b in rows
      modifies this, world, world.terrain
      ensures Valid() && A.Result(View(), end) == A.Attack(old(View()), b, energy, damage, fault, env)
    {
      hide Agreement, Alive, Total, World.Mirrored, Front, A.Kill;
      ghost var s := View();
      A.AttackSteps(s, b, energy, damage, fault, env);
      A.SpendSteps(s, b, env.attack);
      end := Spend(b, env.attack);
      if end.BugDeath? { return; }
      var front := FrontOf(b);
      var target := world.Get(front);
      if target.None? || target.value.kind.Food? {
        return A.ActionError;
      }
      var t := target.value.id;
      A.HitSteps(View(), b, damage, env.now);
      A.CellOf(View(), front);
      var hit := Spend(t, damage);
      if hit.BugDeath? {
        if t == b {
          return A.DatabaseError;
        }
        Kill(t, env.now);
      } else if target.value.kind.Bug? && fault {
        return A.EventFault;
      }
      A.MemberOf(View(), b);
      end := Spend(b, energy);
    }

    /** What was eaten is told to the caller, also for an egg, which gives no energy yet. */
    method Eat(b: nat, env: A.Env) returns (end: A.End, energy: Energy)
      requires Valid() && A.Sound(View()) && b in bugs && b in rows
      modifies this, world, world.terrain
      ensures Valid() && A.Result(View(), end) == A.Eat(old(View()), b, env)
    {
      hide Agreement, Alive, Total, World.Mirrored, Front, A.Kill, Delete;
      ghost var s := View();
      A.EatSteps(s, b, env);
      A.SpendSteps(s, b, env.eat);
      energy := 0;
      end := Spend(b, env.eat);
      if end.BugDeath? { return; }
      var front := FrontOf(b);
      var target := world.Get(front);
      if target.None? || target.value.kind.Bug? {
        return A.ActionError, 0;
      }
      var t := target.value.id;
      A.CellOf(View(), front);
      energy := rows[t].size;
      if target.value.kind.Egg? {
        Kill(t, env.now);
        return A.Success, energy;
      }
      var fed := Plus(rows[b].energy, energy);
      if !A.Storable(fed) {
        return A.DatabaseError, 0;
      }
      A.MemberOf(View(), b);
      UpdateAgrees(View(), b, rows[b].(energy := fed));
      rows := rows[b := rows[b].(energy := fed)];
      Leave(t);
      return A.Success, energy;
    }

    method LayEgg(b: nat, energy: Energy, code: Energy, env: A.Env) returns (end: A.End)
      requires Valid() && A.Sound(View()) && b in bugs && b in rows
      modifies this, world, world.terrain
      ensures Valid() && A.Result(View(), end) == A.LayEgg(old(View()), b, energy, code, env)
    {
      hide Agreement, Alive, Total, World.Mirrored, Front, Turn, Insert;
      ghost var s := View();
      A.LaySteps(s, b, energy, code, env);
      A.SpendSteps(s, b, env.egg);
      end := Spend(b, env.egg);
      if end.BugDeath? { return; }
      var front := FrontOf(b);
      var used := world.Get(front);
      if energy == 0 || used.Some? {
        return A.ActionError;
      }
      var egg := A.Laid(rows[b], front, energy, code, env.now);
      A.MemberOf(View(), b);
      A.FrontInside(rows[b].position, rows[b].orientation, world.size);
      if code == 0 || code % 4 != 0 {
        return A.DatabaseError;
      }
      A.SpendSteps(View(), b, code);
      end := Spend(b, code);
      if end.BugDeath? { return; }
      A.BugAlive(View(), b);
      A.PlaceSteps(View(), b, egg);
      Enter(egg);
      end := Spend(b, energy);
    }

    // ----- Turns

    method Perform(b: nat, a: C.Action, env: A.Env) returns (end: A.End)
      requires Valid() && A.Sound(View()) && b in bugs && b in rows
      modifies this, world, world.terrain
      ensures Valid() && A.Result(View(), end) == C.Perform(old(View()), b, a, env)
    {
      hide Agreement, Alive, Total, World.Mirrored, A.MoveBug, A.TurnBug, A.Attack, A.Eat, A.LayEgg, A.Spend;
      match a {
        case Sense(cost) =>
          A.SpendSteps(View(), b, cost);
          end := Spend(b, cost);
        case Go => end := MoveBug(b, env);
        case Rotate(side) => end := TurnBug(b, side, env);
        case Strike(energy, damage, fault) => end := Attack(b, energy, damage, fault, env);
        case Feed =>
          var eaten;
          end, eaten := Eat(b, env);
        case Lay(energy, code) => end := LayEgg(b, energy, code, env);
      }
    }

    /** An action, dated when it ends. */
    method Act(b: nat, a: C.Action, env: A.Env) returns (end: A.End)
      requires Valid() && A.Sound(View()) && b in bugs && b in rows
      modifies this, world, world.terrain
      ensures Valid() && A.Result(View(), end) == C.Act(old(View()), b, a, env)
    {
      hide Agreement, Alive, Total, World.Mirrored, C.Perform;
      C.ActKeeps(View(), b, a, env);
      end := Perform(b, a, env);
      if end.Success? || end.ActionError? {
        rows := rows[b := rows[b].(lastAction := Some(env.now))];
      }
    }

    /** The actions of a cycle, one after the other; the error that stops them decides the rest. */
    method TakeTurn(b: nat, t: C.Turn, env: A.Env) returns (aborted: bool)
      requires Valid() && A.Sound(View()) && b in bugs && b in rows
      modifies this, world, world.terrain
      ensures Valid() && (View(), aborted) == C.TakeTurn(old(View()), b, t, env)
    {
      hide Agreement, Alive, Total, World.Mirrored, C.Act, A.Kill;
      ghost var s := View();
      var i := 0;
      assert C.Turn(t.actions[0..], t.last) == t;
      A.BugAlive(View(), b);
      while i < |t.actions|
        invariant 0 <= i <= |t.actions|
        invariant Valid() && A.Sound(View()) && b in bugs && A.Living(View(), b)
        invariant C.TakeTurn(View(), b, C.Turn(t.actions[i..], t.last), env) == C.TakeTurn(s, b, t, env)
      {
        C.ActKeeps(View(), b, t.actions[i], env);
        assert t.actions[i..][0] == t.actions[i] && t.actions[i..][1..] == t.actions[i + 1..];
        var end := Act(b, t.actions[i], env);
        if end.BugDeath? {
          Kill(b, env.now);
          return false;
        }
        if end.DatabaseError? {
          return true;
        }
        i := i + 1;
      }
      if t.last.Crashes? {
        Kill(b, env.now);
      }
      return t.last.Aborts?;
    }

    /** A copy of the list is walked; a bug that is no longer in the list was killed by another. */
    method BugsRun(turns: seq<C.Turn>, env: A.Env) returns (aborted: bool)
      requires Valid() && A.Sound(View()) && |turns| == |bugs|
      modifies this, world, world.terrain
      ensures Valid() && (View(), aborted) == C.BugsRun(old(View()), old(bugs), turns, env)
    {
      hide Agreement, Alive, Total, World.Mirrored, C.TakeTurn;
      ghost var s := View();
      var list := bugs;
      var i := 0;
      assert list[0..] == list && turns[0..] == turns;
      while i < |list|
        invariant 0 <= i <= |list|
        invariant Valid() && A.Sound(View())
        invariant C.BugsRun(View(), list[i..], turns[i..], env) == C.BugsRun(s, list, turns, env)
      {
        assert list[i..][0] == list[i] && list[i..][1..] == list[i + 1..];
        assert turns[i..][0] == turns[i] && turns[i..][1..] == turns[i + 1..];
        if list[i] in bugs {
          A.BugAlive(View(), list[i]);
          C.TurnKeeps(View(), list[i], turns[i], env);
          var cut := TakeTurn(list[i], turns[i], env);
          if cut {
            return true;
          }
        }
        i := i + 1;
      }
      return false;
    }

    // ----- The other phases

    /** The time since something, in 32 bits, is a positive multiple of a period. */
    method IsDue(now: Time, since: Time, period: Time) returns (due: bool)
      requires period > 0
      ensures due == C.Due(now, since, period)
    {
      var age := Minus(now, since);
      due := age > 0 && age % period == 0;
    }

    /** What a phase does to one element of its list. */
    method Visit(r: nat, phase: C.Phase, fault: bool, env: A.Env)
      requires Valid() && A.Sound(View()) && r in rows && rows[r].kind == C.PhaseKind(phase) && C.Periods(env)
      modifies this, world, world.terrain
      ensures Valid() && View() == C.Visit(old(View()), r, phase, fault, env)
    {
      hide Agreement, Alive, Total, World.Mirrored, C.Due, A.Kill, A.Birth, Delete;
      C.VisitKeeps(View(), r, phase, fault, env);
      match phase {
        case Hatching =>
          if Plus(rows[r].time, env.timeBirth) <= env.now {
            Birth(r, env.now);
          }
        case Timing =>
          if fault {
            Kill(r, env.now);
          }
        case Lazing =>
          var since := if rows[r].lastAction.Some? then rows[r].lastAction.value else rows[r].time;
          var due := IsDue(env.now, since, env.timeLaziness);
          if due {
            var end := Spend(r, env.laziness);
            if end.BugDeath? {
              Kill(r, env.now);
            }
          }
        case Rotting =>
          var due := IsDue(env.now, rows[r].time, env.timeRot);
          if due {
            if rows[r].size <= env.sizeRot {
              Leave(r);
            } else {
              rows := rows[r := rows[r].(size := rows[r].size - env.sizeRot)];
            }
          }
      }
    }

    /** `eggs_birth`, `bugs_timer`, `bugs_laziness` and `food_rot`: each walks a copy of its list. */
    method Phase(phase: C.Phase, fault: nat -> bool, env: A.Env)
      requires Valid() && A.Sound(View()) && C.Periods(env)
      modifies this, world, world.terrain
      ensures Valid() && View() == C.Phased(old(View()), phase, fault, env)
    {
      hide Agreement, Alive, Total, World.Mirrored, C.Visit, C.Visits;
      ghost var s := View();
      ghost var kind := C.PhaseKind(phase);
      var list := match phase case Hatching => eggs case Timing => bugs case Lazing => bugs case Rotting => foods;
      C.ListVisits(s, kind);
      ghost var faults := C.Each(list, fault);
      var i := 0;
      assert list[0..] == list && faults[0..] == faults;
      while i < |list|
        invariant 0 <= i <= |list|
        invariant Valid() && A.Sound(View()) && C.Visits(View(), list[i..], kind)
        invariant C.Walk(View(), list[i..], phase, faults[i..], env) == C.Walk(s, list, phase, faults, env)
      {
        assert list[i..][0] == list[i] && list[i..][1..] == list[i + 1..];
        assert faults[i..][0] == fault(list[i]) && faults[i..][1..] == faults[i + 1..];
        ghost var before := View();
        C.VisitedIn(before, list[i..], kind);
        C.VisitKeeps(before, list[i], phase, fault(list[i]), env);
        Visit(list[i], phase, fault(list[i]), env);
        C.VisitsRest(before, View(), list[i..], kind);
        i := i + 1;
      }
    }

    /** The list is walked as it is; what nothing catches ends the program. */
    method BugsMutate(changes: seq<Option<C.Change>>, env: A.Env) returns (aborted: bool)
      requires Valid() && A.Sound(View()) && |changes| == |bugs|
      modifies this`rows
      ensures Valid() && (View(), aborted) == C.Mutate(old(View()), old(bugs), changes, env)
    {
      hide Agreement, Alive, Total, World.Mirrored, C.Due, C.Mutates;
      ghost var s := View();
      if env.timeMutate == 0 {
        C.MutateNever(s, bugs, changes, env);
        return false;
      }
      var i := 0;
      assert bugs[0..] == bugs && changes[0..] == changes;
      while i < |bugs|
        invariant 0 <= i <= |bugs|
        invariant Valid() && A.Sound(View())
        invariant C.Mutate(View(), bugs[i..], changes[i..], env) == C.Mutate(s, bugs, changes, env)
      {
        assert bugs[i..][0] == bugs[i] && bugs[i..][1..] == bugs[i + 1..];
        assert changes[i..][0] == changes[i] && changes[i..][1..] == changes[i + 1..];
        A.BugAlive(View(), bugs[i]);
        var due := IsDue(env.now, rows[bugs[i]].time, env.timeMutate);
        C.MutatesWhen(View(), bugs[i], changes[i], env);
        if due && changes[i].Some? {
          if !A.CodeFits(changes[i].value.code) {
            return true;
          }
          C.RecodeKeeps(View(), bugs[i], changes[i]);
          rows := rows[bugs[i] := rows[bugs[i]].(size := changes[i].value.code)];
          if changes[i].value.fault {
            return true;
          }
        }
        i := i + 1;
      }
      return false;
    }

    // ----- What comes from outside

    /** `add_egg`: the tables refuse it before the lists or the grid are touched. */
    method AddEgg(energy: Energy, position: Position, orientation: Orientation, code: Energy, now: Time)
      returns (r: Entry)
      requires Valid() && A.Sound(View())
      modifies this, world, world.terrain
      ensures Valid() && A.Sound(View())
      ensures var row := Row(Egg, position, orientation, energy, code, now, None);
              && r == (if code % 4 != 0 then Unreadable
                       else if code > 0 && A.Storable(energy) && C.CanSprout(old(View()), row) then Entered
                       else Refused)
              && View() == if r.Entered? then C.Sprout(old(View()), [row]) else old(View())
    {
      hide Agreement, Alive, Total, World.Mirrored, Insert;
      if code % 4 != 0 {
        return Unreadable;
      }
      var row := Row(Egg, position, orientation, energy, code, now, None);
      var used := world.Get(position);
      if code == 0 || !A.Storable(energy) || position.x >= world.size.x || position.y >= world.size.y || used.Some? {
        return Refused;
      }
      SproutOne(View(), View(), [], row);
      C.InsertKeeps(View(), row);
      Enter(row);
      return Entered;
    }

    /** `add_food`. */
    method AddFood(position: Position, size: Energy, now: Time) returns (r: Entry)
      requires Valid() && A.Sound(View())
      modifies this, world, world.terrain
      ensures Valid() && A.Sound(View())
      ensures var row := Row(Food, position, North, 0, size, now, None);
              && r == (if size < 0x8000_0000 && C.CanSprout(old(View()), row) then Entered else Refused)
              && View() == if r.Entered? then C.Sprout(old(View()), [row]) else old(View())
    {
      hide Agreement, Alive, Total, World.Mirrored, Insert;
      var row := Row(Food, position, North, 0, size, now, None);
      var used := world.Get(position);
      if size >= 0x8000_0000 || position.x >= world.size.x || position.y >= world.size.y || used.Some? {
        return Refused;
      }
      SproutOne(View(), View(), [], row);
      C.InsertKeeps(View(), row);
      Enter(row);
      return Entered;
    }

    /** One source: as many new elements as are missing, each on a free cell of its region, unless
        the region fills up before, or the tables refuse one. */
    method SpawnIn(crop: Crop, f: Source, draw: nat -> Draw, now: Time) returns (r: Harvest, ghost sprouts: seq<Row>)
      requires Valid() && A.Sound(View()) && Fertile(crop, f, world.size)
      modifies this, world, world.terrain
      ensures Valid() && A.Sound(View()) && View() == C.Sprout(old(View()), sprouts)
      ensures AllSpring(sprouts, crop, f, draw, now)
      ensures Taken(crop, f, draw, |sprouts|)
      ensures var grown := if crop.Foods? then Some(Food) else Some(Egg);
              CountIn(world.cells, f, grown) == old(CountIn(world.cells, f, grown)) + |sprouts|
      ensures var count := old(CountIn(world.cells, f, if crop.Foods? then Some(Food) else Some(Bug))) % 0x1_0000;
              var missing := if count < f.max then f.max - count else 0;
              |sprouts| <= missing && (r.Grew? <==> |sprouts| == missing)
      ensures !r.Crashed?
      ensures r.Full? || r.Stuck? ==> IsFull(world.cells, f.start, f.end) && Coded(crop, draw(|sprouts|))
                                      && (r.Stuck? <==> Area(f.start, f.end) >= 0x1_0000)
      ensures r.Barred? ==> !Coded(crop, draw(|sprouts|))
                            || (!Priced(crop, f) && !IsFull(world.cells, f.start, f.end))
    {
      hide Agreement, Alive, Total, World.Mirrored, Insert, NumberIn, IsFull, Area, Coded, Priced;
      ghost var s := View();
      ghost var kind := Some(Grown(crop));
      sprouts := [];
      var count := world.NumElements(f.start, f.end, Some(Counted(crop)));
      if count < f.max {
        var i := 0;
        while i < f.max - count
          invariant 0 <= i == |sprouts| <= f.max - count
          invariant Valid() && A.Sound(View()) && View() == C.Sprout(s, sprouts)
          invariant AllSpring(sprouts, crop, f, draw, now)
          invariant Taken(crop, f, draw, i)
          invariant CountIn(world.cells, f, kind) == CountIn(s.grid, f, kind) + i
        {
          if !Coded(crop, draw(i)) {
            return Barred, sprouts;
          }
          var search := world.UnusedPosition(f.start, f.end);
          if !search.Found? {
            return if search.Endless? then Stuck else Full, sprouts;
          }
          if !Priced(crop, f) {
            return Barred, sprouts;
          }
          var row := Sprouted(crop, f, search.position, draw(i), now);
          PricedSprouts(crop, f, search.position, draw(i), now);
          SproutOne(s, View(), sprouts, row);
          C.InsertKeeps(View(), row);
          NumberAdds(world.cells, search.position, Element(next, row.kind), f.start, f.end, kind);
          InsertGrid(View(), row);
          Enter(row);
          OneMoreSprings(sprouts, row, crop, f, draw, now);
          sprouts := sprouts + [row];
          i := i + 1;
        }
      }
      return Grew, sprouts;
    }

    /** `spawn_eggs` and `spawn_food`: every source that is due, until one finds its region full; then
        the others wait for the next cycle, or no cycle ever comes. */
    method Spawn(crop: Crop, sources: seq<Source>, draw: nat -> nat -> Draw, now: Time)
      returns (done: nat, r: Harvest, ghost sprouts: seq<Row>)
      requires Valid() && A.Sound(View()) && forall f :: f in sources ==> Fertile(crop, f, world.size)
      modifies this, world, world.terrain
      ensures Valid() && A.Sound(View()) && View() == C.Sprout(old(View()), sprouts)
      ensures done <= |sources| && forall row :: row in sprouts ==> Comes(row, crop, sources, draw, now)
      ensures forall k :: 0 <= k < done ==> sources[k].frequency > 0
      ensures crop.Foods? ==> forall k :: 0 <= k < done ==> Served(world.cells, sources[k], now)
      ensures crop.Eggs? ==> forall k :: 0 <= k < done ==> Laying(old(world.cells), world.cells, sources[k], now)
      ensures crop.Eggs? && r.Grew? ==> |sprouts| == EggsDue(old(world.cells), sources, now)
      ensures r.Grew? <==> done == |sources|
      ensures r.Crashed? <==> done < |sources| && sources[done].frequency == 0
      ensures r.Full? ==> Ripe(sources[done], now) && IsFull(world.cells, sources[done].start, sources[done].end)
                          && Area(sources[done].start, sources[done].end) < 0x1_0000
      ensures r.Stuck? || r.Barred? || r.Crashed? ==> Halts(crop, sources[done], draw(done), world.cells, now)
    {
      hide Agreement, Alive, Total, World.Mirrored, CountIn, IsFull, Fertile, C.Sprout, Ripe, Springs, Area,
           Coded, Priced, AllSpring, Comes, Laying, EggsOf, EggsDue;
      ghost var s := View();
      sprouts := [];
      done := 0;
      C.SproutNothing(s);
      NoneDue(s.grid, sources, now);
      while done < |sources|
        invariant 0 <= done <= |sources|
        invariant Valid() && A.Sound(View()) && View() == C.Sprout(s, sprouts)
        invariant forall f :: f in sources ==> Fertile(crop, f, world.size)
        invariant forall row :: row in sprouts ==> Comes(row, crop, sources, draw, now)
        invariant forall k :: 0 <= k < done ==> sources[k].frequency > 0
        invariant crop.Foods? ==> forall k :: 0 <= k < done ==> Served(world.cells, sources[k], now)
        invariant crop.Eggs? ==> forall k :: 0 <= k < done ==> Laying(s.grid, world.cells, sources[k], now)
        invariant crop.Eggs? ==> |sprouts| == EggsDue(s.grid, sources[..done], now)
      {
        var f := sources[done];
        FertileRipe(crop, f, world.size, now);
        DueMore(s.grid, sources, done, now);
        if f.frequency == 0 {
          return done, Crashed, sprouts;
        }
        if now % f.frequency == 0 {
          ghost var before := View();
          var harvest, more := SpawnIn(crop, f, draw(done), now);
          C.SproutSplit(s, sprouts, more);
          AllCome(more, crop, sources, done, draw, now);
          forall k | 0 <= k < done && crop.Foods?
            ensures Served(world.cells, sources[k], now)
          {
            SproutServes(before, more, sources[k], now);
          }
          if harvest.Grew? && crop.Foods? {
            SpawnServes(before.grid, world.cells, f, now);
          }
          forall k | 0 <= k < done && crop.Eggs?
            ensures Laying(s.grid, world.cells, sources[k], now)
          {
            LayingStays(s, before, sprouts, more, sources[k], now);
          }
          if harvest.Grew? && crop.Eggs? {
            SpawnLays(before.grid, world.cells, f, |more|, now);
            LayingStays(s, before, sprouts, more, f, now);
          }
          sprouts := sprouts + more;
          if !harvest.Grew? {
            return done, harvest, sprouts;
          }
        } else {
          NothingLaid(s, sprouts, f, now);
        }
        done := done + 1;
      }
      assert sources[..done] == sources;
      return done, Grew, sprouts;
    }

    // ----- Cycles

    /** Eggs, then food, unless one of the sources halts the program. */
    method SpawnAll(spawns: seq<Source>, resources: seq<Source>, draw: nat -> nat -> Draw, now: Time)
      returns (halted: bool, ghost sprouts: seq<Row>)
      requires Valid() && A.Sound(View())
      requires forall f :: f in spawns ==> Fertile(Eggs, f, world.size)
      requires forall f :: f in resources ==> Fertile(Foods, f, world.size)
      modifies this, world, world.terrain
      ensures Valid() && A.Sound(View()) && View() == C.Sprout(old(View()), sprouts)
      ensures forall row :: row in sprouts ==>
                Comes(row, Eggs, spawns, draw, now) || Comes(row, Foods, resources, draw, now)
      ensures if halted then
                HaltsIn(Eggs, spawns, draw, world.cells, now) || HaltsIn(Foods, resources, draw, world.cells, now)
              else Sown(old(world.cells), world.cells, spawns, resources, now)
    {
      hide Agreement, Alive, Total, World.Mirrored, C.Sprout, Fertile, IsFull, CountIn, Comes, Ripe, Area, Halts,
           Laying, Served, StopsAt, EggsDue;
      ghost var s := View();
      var laid: nat, grown: nat, r;
      ghost var eggRows, foodRows;
      laid, r, eggRows := Spawn(Eggs, spawns, draw, now);
      if !r.Grew? && !r.Full? {
        return true, eggRows;
      }
      ghost var between := View();
      Stopped(world.cells, spawns, laid, r.Full?, now);
      grown, r, foodRows := Spawn(Foods, resources, draw, now);
      C.SproutSplit(s, eggRows, foodRows);
      if r.Grew? || r.Full? {
        Stopped(world.cells, resources, grown, r.Full?, now);
        FullStays(between, foodRows, spawns, laid, now);
        forall k | 0 <= k < laid
          ensures Laying(s.grid, world.cells, spawns[k], now)
        {
          LayingStays(s, between, eggRows, foodRows, spawns[k], now);
        }
        assert SownTo(s.grid, world.cells, spawns, resources, laid, grown, now);
      }
      return !r.Grew? && !r.Full?, eggRows + foodRows;
    }

    method Cycle(spawns: seq<Source>, resources: seq<Source>, choice: Choice, env: A.Env)
      returns (aborted: bool, ghost input: C.Input)
      requires Valid() && A.Sound(View()) && C.Periods(env)
      requires forall f :: f in spawns ==> Fertile(Eggs, f, world.size)
      requires forall f :: f in resources ==> Fertile(Foods, f, world.size)
      modifies this, world, world.terrain
      ensures Valid()
      ensures Follows(old(View()), input, spawns, resources, choice, env)
      ensures View() == C.OneCycle(old(View()), input).0 && aborted == C.OneCycle(old(View()), input).1
    {
      hide Agreement, Alive, Total, World.Mirrored, C.Sprout, C.Phased, C.Mutate, C.BugsRun,
           Fertile, IsFull, Comes, Ripe, Area, HaltsIn, Sown;
      ghost var s := View();
      var halted, sprouts := SpawnAll(spawns, resources, choice.draw, env.now);
      var later := env.(now := Plus(env.now, 1));
      input := C.Input(later, sprouts, halted, choice.change, later.now % 64 == 0, choice.fault, choice.turn);
      if halted {
        return true, input;
      }
      C.PhasedKeeps(View(), C.Hatching, C.NO_FAULT, later);
      Phase(C.Hatching, C.NO_FAULT, later);
      var changes := C.Each(bugs, choice.change);
      C.MutateKeeps(View(), bugs, changes, later);
      aborted := BugsMutate(changes, later);
      if aborted { return; }
      if later.now % 64 == 0 {
        C.PhasedKeeps(View(), C.Timing, choice.fault, later);
        Phase(C.Timing, choice.fault, later);
      }
      var turns := C.Each(bugs, choice.turn);
      C.BugsRunKeeps(View(), bugs, turns, later);
      aborted := BugsRun(turns, later);
      if aborted { return; }
      C.PhasedKeeps(View(), C.Lazing, C.NO_FAULT, later);
      Phase(C.Lazing, C.NO_FAULT, later);
      Phase(C.Rotting, C.NO_FAULT, later);
    }

    /** `run`: one cycle for each choice; what the cycles did is a run of the specification, so
        everything still agrees and matter is accounted for. */
    method Run(spawns: seq<Source>, resources: seq<Source>, choices: seq<Choice>, env: A.Env)
      returns (aborted: bool, ghost inputs: seq<C.Input>)
      requires Valid() && A.Sound(View()) && C.Periods(env)
      requires forall f :: f in spawns ==> Fertile(Eggs, f, world.size)
      requires forall f :: f in resources ==> Fertile(Foods, f, world.size)
      modifies this, world, world.terrain
      ensures Valid() && A.Sound(View()) && C.Regular(inputs)
      ensures View() == C.Run(old(View()), inputs).0 && aborted == C.Run(old(View()), inputs).1
      ensures Total(View()) <= old(Total(View())) + C.Run(old(View()), inputs).2
      ensures |inputs| <= |choices| && (|inputs| < |choices| ==> aborted)
      ensures AllFollow(old(View()), inputs, spawns, resources, choices, env)
    {
      hide Agreement, Alive, Total, World.Mirrored, C.OneCycle, Fertile, Follows, AllFollow;
      ghost var s := View();
      NoneFollow(s, spawns, resources, choices, env);
      var time := env.now;
      inputs := [];
      aborted := false;
      var i := 0;
      while i < |choices| && !aborted
        invariant 0 <= i <= |choices|
        invariant Valid() && A.Sound(View()) && C.Regular(inputs)
        invariant View() == C.Run(s, inputs).0 && aborted == C.Run(s, inputs).1
        invariant |inputs| == i && time == Plus(env.now, i)
        invariant AllFollow(s, inputs, spawns, resources, choices, env)
        invariant forall f :: f in spawns ==> Fertile(Eggs, f, world.size)
        invariant forall f :: f in resources ==> Fertile(Foods, f, world.size)
      {
        ghost var before := View();
        var cut, input := Cycle(spawns, resources, choices[i], env.(now := time));
        FollowsRegularly(before, inputs, input, spawns, resources, choices[i], env.(now := time));
        C.RunSplit(s, inputs, input);
        C.OneCycleKeeps(before, input);
        OneMoreFollows(s, inputs, input, spawns, resources, choices, env);
        Later(env.now, i);
        inputs := inputs + [input];
        aborted := cut;
        time := Plus(time, 1);
        i := i + 1;
      }
      C.RunKeeps(s, inputs);
    }
  }
}
