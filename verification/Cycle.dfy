/** The cycle of the world (simpleworld/simpleworld.cpp): what each phase does to the whole state,
    for every choice the programs of the bugs and the random draws can make. */
module Cycle {
  import opened Options
  import opened Words
  import opened Movement
  import opened WorldModel
  import opened Simulation
  import opened Actions

  /** What the program of a bug asks for. `Sense` stands for the actions that only look, or do nothing,
      each with its own fee. */
  datatype Action =
    | Sense(cost: Energy)
    | Go
    | Rotate(side: Side)
    | Strike(energy: Energy, damage: Energy, fault: bool)
    | Feed
    | Lay(energy: Energy, code: Energy)

  /** How the CPU of a bug leaves a cycle it survived its actions of: it waits or has run its
      instructions, it ends in an error, or the database refuses a date. */
  datatype Last = Rests | Crashes | Aborts

  /** The actions a bug asks for in a cycle. */
  datatype Turn = Turn(actions: seq<Action>, last: Last)

  function Perform(s: Sim, b: nat, a: Action, env: Env): Result
    requires Sound(s) && b in s.bugs
  {
    MemberOf(s, b);
    match a
    case Sense(cost) => Spend(s, b, cost)
    case Go => MoveBug(s, b, env)
    case Rotate(side) => TurnBug(s, b, side, env)
    case Strike(energy, damage, fault) => Attack(s, b, energy, damage, fault, env)
    case Feed => Eat(s, b, env)
    case Lay(energy, code) => LayEgg(s, b, energy, code, env)
  }

  /** An action that ends, well or with an action error, is dated. */
  function Act(s: Sim, b: nat, a: Action, env: Env): Result
    requires Sound(s) && b in s.bugs
  {
    var r := Perform(s, b, a, env);
    if (r.end.Success? || r.end.ActionError?) && b in r.s.rows then
      Result(Update(r.s, b, r.s.rows[b].(lastAction := Some(env.now))), r.end)
    else r
  }

  /** What an action adds to the matter of the world: nothing, but for the code, less the fee, of an
      egg that was placed and whose layer then dies of it. */
  function Charge(s: Sim, a: Action, r: Result, env: Env): int {
    if a.Lay? && r.end.BugDeath? && r.s.next != s.next then a.code - env.egg else 0
  }

  /** Any action leaves the world sound and the bug in it; matter does not grow but by its charge,
      once the energy of a bug that dies is gone. */
  lemma ActKeeps(s: Sim, b: nat, a: Action, env: Env)
    requires Sound(s) && b in s.bugs
    ensures var r := Act(s, b, a, env);
            && Sound(r.s) && r.s.size == s.size && b in r.s.bugs && b in r.s.rows && r.s.rows[b].kind.Bug?
            && (!r.end.BugDeath? ==> Total(r.s) <= Total(s))
            && Total(r.s) - (if r.end.BugDeath? then r.s.rows[b].energy else 0) <= Total(s) + Charge(s, a, r, env)
  {
    hide Agreement, Total, MoveBug, TurnBug, Attack, Eat, LayEgg, Spend, Alive;
    var r := Perform(s, b, a, env);
    match a {
      case Sense(cost) => SpendSteps(s, b, cost);
      case Go => MoveSteps(s, b, env);
      case Rotate(side) => TurnSteps(s, b, side, env);
      case Strike(energy, damage, fault) => AttackSteps(s, b, energy, damage, fault, env);
      case Feed => EatSteps(s, b, env);
      case Lay(energy, code) => LaySteps(s, b, energy, code, env);
    }
    if r.end.Success? || r.end.ActionError? {
      BugAlive(r.s, b);
      UpdateSteps(r.s, b, r.s.rows[b].(lastAction := Some(env.now)));
    }
  }

  // ----- The turn of a bug

  /** The turn: it ends early by dying, or with an error of the database that ends the program. */
  function TakeTurn(s: Sim, b: nat, t: Turn, env: Env): (Sim, bool)
    requires Sound(s) && b in s.bugs
    decreases |t.actions|
  {
    MemberOf(s, b);
    if t.actions == [] then (if t.last.Crashes? then Kill(s, b, env.now) else s, t.last.Aborts?)
    else
      var r := Act(s, b, t.actions[0], env);
      ActKeeps(s, b, t.actions[0], env);
      if r.end.BugDeath? then (Kill(r.s, b, env.now), false)
      else if r.end.DatabaseError? then (r.s, true)
      else TakeTurn(r.s, b, Turn(t.actions[1..], t.last), env)
  }

  /** Actions one after the other, each from where the one before left the world; `Some` when none of
      them ends the turn. */
  function Carry(s: Sim, b: nat, actions: seq<Action>, env: Env): (r: Option<Sim>)
    requires Sound(s) && b in s.bugs
    ensures r.Some? ==> Sound(r.value) && b in r.value.bugs
    decreases |actions|
  {
    if actions == [] then Some(s)
    else
      var r := Act(s, b, actions[0], env);
      ActKeeps(s, b, actions[0], env);
      if r.end.BugDeath? || r.end.DatabaseError? then None else Carry(r.s, b, actions[1..], env)
  }

  /** How a turn ends. When every action is carried, as the CPU does: the bug lives on, or is food if the
      CPU ended in an error, or the program ends. At the first action that is not, the bug is food if it
      died of it, and the program ends if the database refused it; what was to come does not matter. */
  lemma {:induction false} TurnDecides(s: Sim, b: nat, done: seq<Action>, more: seq<Action>, last: Last, env: Env)
    requires Sound(s) && b in s.bugs && Carry(s, b, done, env).Some?
    ensures var n := Carry(s, b, done, env).value;
            && b in n.rows
            && var (after, aborted) := TakeTurn(s, b, Turn(done + more, last), env);
               if more == [] then
                 aborted == last.Aborts? && after == if last.Crashes? then Kill(n, b, env.now) else n
               else
                 var r := Act(n, b, more[0], env);
                 && b in r.s.rows
                 && (r.end.BugDeath? ==> !aborted && after == Kill(r.s, b, env.now))
                 && (r.end.DatabaseError? ==> aborted && after == r.s)
    decreases |done|
  {
    hide Agreement, Total, Act, Alive, Kill;
    BugAlive(s, b);
    if done == [] {
      assert done + more == more;
      if more != [] {
        ActKeeps(s, b, more[0], env);
      }
    } else {
      ActKeeps(s, b, done[0], env);
      assert (done + more)[1..] == done[1..] + more;
      TurnDecides(Act(s, b, done[0], env).s, b, done[1..], more, last, env);
    }
  }

  /** An action that ends well or with an action error is dated, and no other. */
  lemma ActDecides(s: Sim, b: nat, a: Action, env: Env)
    requires Sound(s) && b in s.bugs
    ensures var p, r := Perform(s, b, a, env), Act(s, b, a, env);
            && b in p.s.rows && r.end == p.end
            && (if p.end.Success? || p.end.ActionError? then
                  r.s == p.s.(rows := p.s.rows[b := p.s.rows[b].(lastAction := Some(env.now))])
                else r.s == p.s)
  {
    hide Agreement, Total, Perform, Alive;
    ActKeeps(s, b, a, env);
  }

  /** What a turn adds to matter: the charge of the action it dies of, if any. */
  function Fatal(s: Sim, b: nat, t: Turn, env: Env): int
    requires Sound(s) && b in s.bugs
    decreases |t.actions|
  {
    MemberOf(s, b);
    if t.actions == [] then 0
    else
      var r := Act(s, b, t.actions[0], env);
      ActKeeps(s, b, t.actions[0], env);
      if r.end.BugDeath? then Charge(s, t.actions[0], r, env)
      else if r.end.DatabaseError? then 0
      else Fatal(r.s, b, Turn(t.actions[1..], t.last), env)
  }

  /** A whole turn leaves the world sound; matter does not grow, but for the code, less the fee, of an
      egg that was placed and whose layer dies of it. */
  lemma {:induction false} TurnKeeps(s: Sim, b: nat, t: Turn, env: Env)
    requires Sound(s) && b in s.bugs
    ensures var n := TakeTurn(s, b, t, env).0;
            && Sound(n) && n.size == s.size
            && Total(n) <= Total(s) + Fatal(s, b, t, env)
    decreases |t.actions|
  {
    hide Agreement, Total, Act, Alive, Kill;
    BugAlive(s, b);
    if t.actions == [] {
      KillKeeps(s, b, env.now);
    } else {
      ActKeeps(s, b, t.actions[0], env);
      var r := Act(s, b, t.actions[0], env);
      if r.end.BugDeath? {
        KillKeeps(r.s, b, env.now);
      } else if !r.end.DatabaseError? {
        TurnKeeps(r.s, b, Turn(t.actions[1..], t.last), env);
      }
    }
  }

  /** `bugs_run`: a copy of the list is walked, and a bug that another has killed is passed over. */
  function BugsRun(s: Sim, list: seq<nat>, turns: seq<Turn>, env: Env): (Sim, bool)
    requires Sound(s) && |turns| == |list|
    decreases |list|
  {
    if list == [] then (s, false)
    else if list[0] !in s.bugs then BugsRun(s, list[1..], turns[1..], env)
    else
      var (n, aborted) := TakeTurn(s, list[0], turns[0], env);
      TurnKeeps(s, list[0], turns[0], env);
      if aborted then (n, true) else BugsRun(n, list[1..], turns[1..], env)
  }

  /** The codes, less the fees, of all the eggs that were placed and whose layers died of them. */
  function FatalCodes(s: Sim, list: seq<nat>, turns: seq<Turn>, env: Env): int
    requires Sound(s) && |turns| == |list|
    decreases |list|
  {
    if list == [] then 0
    else if list[0] !in s.bugs then FatalCodes(s, list[1..], turns[1..], env)
    else
      var (n, aborted) := TakeTurn(s, list[0], turns[0], env);
      TurnKeeps(s, list[0], turns[0], env);
      Fatal(s, list[0], turns[0], env) + if aborted then 0 else FatalCodes(n, list[1..], turns[1..], env)
  }

  lemma {:induction false} BugsRunKeeps(s: Sim, list: seq<nat>, turns: seq<Turn>, env: Env)
    requires Sound(s) && |turns| == |list|
    ensures var n := BugsRun(s, list, turns, env).0;
            && Sound(n) && n.size == s.size
            && Total(n) <= Total(s) + FatalCodes(s, list, turns, env)
    decreases |list|
  {
    hide Agreement, Total, TakeTurn, Alive, Fatal;
    if list == [] {
    } else {
      if list[0] !in s.bugs {
        BugsRunKeeps(s, list[1..], turns[1..], env);
      } else {
        TurnKeeps(s, list[0], turns[0], env);
        var (n, aborted) := TakeTurn(s, list[0], turns[0], env);
        if !aborted {
          BugsRunKeeps(n, list[1..], turns[1..], env);
        }
      }
    }
  }

  /** The turns of a list in two parts: those of the second begin where those of the first end. */
  lemma {:induction false} BugsRunSplit(s: Sim, a: seq<nat>, b: seq<nat>, ta: seq<Turn>, tb: seq<Turn>, env: Env)
    requires Sound(s) && |ta| == |a| && |tb| == |b| && !BugsRun(s, a, ta, env).1
    ensures Sound(BugsRun(s, a, ta, env).0)
    ensures BugsRun(s, a + b, ta + tb, env) == BugsRun(BugsRun(s, a, ta, env).0, b, tb, env)
    decreases |a|
  {
    hide Agreement, Total, TakeTurn, Alive;
    if a == [] {
      assert a + b == b && ta + tb == tb;
    } else {
      assert (a + b)[1..] == a[1..] + b && (ta + tb)[1..] == ta[1..] + tb;
      if a[0] in s.bugs {
        TurnKeeps(s, a[0], ta[0], env);
        BugsRunSplit(TakeTurn(s, a[0], ta[0], env).0, a[1..], b, ta[1..], tb, env);
      } else {
        BugsRunSplit(s, a[1..], b, ta[1..], tb, env);
      }
    }
  }

  /** Each bug of the list that is alive when its place comes takes its own turn then; one that is not
      is passed over. */
  lemma BugsRunDecides(s: Sim, list: seq<nat>, turns: seq<Turn>, k: nat, env: Env)
    requires Sound(s) && |turns| == |list| && k < |list| && !BugsRun(s, list[..k], turns[..k], env).1
    ensures Sound(BugsRun(s, list[..k], turns[..k], env).0)
    ensures var before := BugsRun(s, list[..k], turns[..k], env).0;
            BugsRun(s, list[..k + 1], turns[..k + 1], env) ==
            if list[k] in before.bugs then TakeTurn(before, list[k], turns[k], env) else (before, false)
  {
    hide Agreement, Total, TakeTurn, Alive, BugsRun;
    assert list[..k + 1] == list[..k] + [list[k]] && turns[..k + 1] == turns[..k] + [turns[k]];
    BugsRunSplit(s, list[..k], [list[k]], turns[..k], [turns[k]], env);
    BugsRunOne(BugsRun(s, list[..k], turns[..k], env).0, list[k], turns[k], env);
  }

  lemma BugsRunOne(s: Sim, b: nat, t: Turn, env: Env)
    requires Sound(s)
    ensures BugsRun(s, [b], [t], env) == if b in s.bugs then TakeTurn(s, b, t, env) else (s, false)
  {
    hide Agreement, Total, TakeTurn, Alive;
    if b in s.bugs {
      TurnKeeps(s, b, t, env);
      BugsRunNone(TakeTurn(s, b, t, env).0, env);
    } else {
      BugsRunNone(s, env);
    }
  }

  lemma BugsRunNone(s: Sim, env: Env)
    requires Sound(s)
    ensures BugsRun(s, [], [], env) == (s, false)
  {
  }

  // ----- The other phases

  predicate Periods(env: Env) {
    env.timeLaziness > 0 && env.timeRot > 0
  }

  /** Elements of one list, none twice: what a phase still has to visit. */
  predicate Visits(s: Sim, list: seq<nat>, kind: Kind) {
    NoDuplicates(list) && forall r :: r in list ==> r in s.rows && s.rows[r].kind == kind
  }

  lemma VisitsRest(s: Sim, n: Sim, list: seq<nat>, kind: Kind)
    requires Visits(s, list, kind) && list != []
    requires forall q :: q in s.rows && q != list[0] ==> q in n.rows && n.rows[q].kind == s.rows[q].kind
    ensures Visits(n, list[1..], kind)
  {
    assert forall q :: q in list[1..] ==> q in list && q != list[0];
  }

  /** What one element goes through in a phase. */
  datatype Phase = Hatching | Timing | Lazing | Rotting

  function PhaseKind(phase: Phase): Kind {
    match phase case Hatching => Egg case Timing => Bug case Lazing => Bug case Rotting => Food
  }

  /** The time since something, in 32 bits, is a positive multiple of a period. */
  predicate Due(now: Time, since: Time, period: Time)
    requires period > 0
  {
    var age := Minus(now, since);
    age > 0 && age % period == 0
  }

  /** An egg old enough becomes a bug; a bug whose timer interrupt fails dies; a bug that has not
      acted pays or dies; food shrinks or goes. */
  function Visit(s: Sim, r: nat, phase: Phase, fault: bool, env: Env): Sim
    requires r in s.rows && env.timeLaziness > 0 && env.timeRot > 0
  {
    var row := s.rows[r];
    match phase
    case Hatching => if Plus(row.time, env.timeBirth) <= env.now then Birth(s, r, env.now) else s
    case Timing => if fault then Kill(s, r, env.now) else s
    case Lazing =>
      if Due(env.now, if row.lastAction.Some? then row.lastAction.value else row.time, env.timeLaziness) then
        var p := Spend(s, r, env.laziness);
        if p.end.BugDeath? then Kill(s, r, env.now) else p.s
      else s
    case Rotting =>
      if Due(env.now, row.time, env.timeRot) then
        if row.size <= env.sizeRot then Delete(s, r) else Update(s, r, row.(size := row.size - env.sizeRot))
      else s
  }

  /** One visit: the world stays sound, no other row changes, and matter does not grow. */
  lemma VisitKeeps(s: Sim, r: nat, phase: Phase, fault: bool, env: Env)
    requires Sound(s) && r in s.rows && s.rows[r].kind == PhaseKind(phase)
    requires env.timeLaziness > 0 && env.timeRot > 0
    ensures var n := Visit(s, r, phase, fault, env);
            && Sound(n) && n.size == s.size && Total(n) <= Total(s)
            && (forall q :: q in s.rows && q != r ==> q in n.rows && n.rows[q] == s.rows[q])
  {
    hide Agreement, Total, Kill, Birth, Delete, Alive, Due;
    match phase
    case Hatching => BirthKeeps(s, r, env.now);
    case Timing => KillKeeps(s, r, env.now);
    case Lazing =>
      KillKeeps(s, r, env.now);
      SpendKeeps(s, r, env.laziness);
      SpendOthers(s, r, env.laziness);
    case Rotting =>
      TotalDeleted(s, r);
      DeleteAlive(s, r);
      if s.rows[r].size > env.sizeRot {
        FoodShrinks(s, r, s.rows[r].size - env.sizeRot);
      }
  }

  lemma SpendOthers(s: Sim, r: nat, cost: Energy)
    requires r in s.rows
    ensures forall q :: q in s.rows && q != r ==>
              q in Spend(s, r, cost).s.rows && Spend(s, r, cost).s.rows[q] == s.rows[q]
  {
  }

  lemma FoodShrinks(s: Sim, r: nat, size: Energy)
    requires Sound(s) && r in s.rows && s.rows[r].kind.Food? && size <= s.rows[r].size
    ensures var n := Update(s, r, s.rows[r].(size := size));
            Sound(n) && n.size == s.size && Total(n) <= Total(s)
  {
    hide Agreement, Total;
    TotalUpdated(s, r, s.rows[r].(size := size));
  }

  /** A phase visits a copy of its list; `faults` says whose timer interrupt fails. */
  function Walk(s: Sim, list: seq<nat>, phase: Phase, faults: seq<bool>, env: Env): Sim
    requires Sound(s) && Visits(s, list, PhaseKind(phase)) && |faults| == |list|
    requires env.timeLaziness > 0 && env.timeRot > 0
    decreases |list|
  {
    if list == [] then s
    else
      var n := Visit(s, list[0], phase, faults[0], env);
      VisitKeeps(s, list[0], phase, faults[0], env);
      VisitsRest(s, n, list, PhaseKind(phase));
      Walk(n, list[1..], phase, faults[1..], env)
  }

  lemma {:induction false} WalkKeeps(s: Sim, list: seq<nat>, phase: Phase, faults: seq<bool>, env: Env)
    requires Sound(s) && Visits(s, list, PhaseKind(phase)) && |faults| == |list|
    requires env.timeLaziness > 0 && env.timeRot > 0
    ensures var n := Walk(s, list, phase, faults, env);
            Sound(n) && n.size == s.size && Total(n) <= Total(s)
    decreases |list|
  {
    hide Agreement, Total, Visit, Alive, Visits;
    if list == [] {
    } else {
      VisitedIn(s, list, PhaseKind(phase));
      VisitKeeps(s, list[0], phase, faults[0], env);
      var n := Visit(s, list[0], phase, faults[0], env);
      VisitsRest(s, n, list, PhaseKind(phase));
      WalkKeeps(n, list[1..], phase, faults[1..], env);
    }
  }

  lemma VisitedIn(s: Sim, list: seq<nat>, kind: Kind)
    requires Visits(s, list, kind) && list != []
    ensures list[0] in s.rows && s.rows[list[0]].kind == kind
  {
  }

  /** A list of the state can be walked. */
  lemma ListVisits(s: Sim, kind: Kind)
    requires Agreement(s)
    ensures Visits(s, ListOf(s, kind), kind)
  {
  }

  // ----- What a phase does to each element

  /** The cycles since something, on a clock of 32 bits, are a positive multiple of a period. */
  predicate Elapsed(now: Time, since: Time, period: Time)
    requires period > 0
  {
    var age := if now >= since then now as int - since as int else now as int - since as int + 0x1_0000_0000;
    age > 0 && age % period == 0
  }

  lemma DueIs(now: Time, since: Time, period: Time)
    requires period > 0
    ensures Due(now, since, period) <==> Elapsed(now, since, period)
  {
  }

  predicate Stays(n: Sim, r: nat, row: Row) {
    r in n.rows && n.rows[r] == row
  }

  /** The element is gone and another, with this row, is on its cell. */
  predicate Becomes(n: Sim, r: nat, row: Row) {
    && r !in n.rows && row.position in n.grid
    && n.grid[row.position].kind == row.kind && Stays(n, n.grid[row.position].id, row)
  }

  function FoodFrom(row: Row, now: Time): Row {
    Row(Food, row.position, row.orientation, 0, row.size, now, None)
  }

  /** What has become in `n` of the element `r` that had this row when its phase came. An egg hatches
      with its energy, code, cell and orientation when it is old enough; a bug whose timer interrupt
      fails is food; a bug pays for laziness, or is food when it cannot, when the cycles since its last
      action, or its birth if it never acted, are a multiple of the period; food that is due shrinks,
      or leaves its cell. */
  predicate Fate(n: Sim, r: nat, row: Row, phase: Phase, fault: bool, env: Env)
    requires Periods(env)
  {
    match phase
    case Hatching =>
      if (row.time as int + env.timeBirth as int) % 0x1_0000_0000 <= env.now then
        Becomes(n, r, Row(Bug, row.position, row.orientation, row.energy, row.size, env.now, None))
      else Stays(n, r, row)
    case Timing => if fault then Becomes(n, r, FoodFrom(row, env.now)) else Stays(n, r, row)
    case Lazing =>
      var since := match row.lastAction case Some(t) => t case None => row.time;
      if !Elapsed(env.now, since, env.timeLaziness) then Stays(n, r, row)
      else if row.energy > env.laziness then Stays(n, r, row.(energy := row.energy - env.laziness))
      else Becomes(n, r, FoodFrom(row, env.now))
    case Rotting =>
      if !Elapsed(env.now, row.time, env.timeRot) then Stays(n, r, row)
      else if row.size > env.sizeRot then Stays(n, r, row.(size := row.size - env.sizeRot))
      else r !in n.rows && row.position !in n.grid
  }

  /** What is on other cells is the same. */
  ghost predicate Local(s: Sim, n: Sim, cells: set<Position>) {
    forall p :: p !in cells ==> (p in n.grid <==> p in s.grid) && (p in s.grid ==> n.grid[p] == s.grid[p])
  }

  /** No other cell is touched, and a new element has a new number. */
  ghost predicate Touches(s: Sim, n: Sim, cells: set<Position>) {
    Local(s, n, cells) && n.next >= s.next && forall q :: q in n.rows && q < s.next ==> q in s.rows
  }

  lemma ReplaceShows(s: Sim, r: nat, row: Row)
    requires Numbered(s) && r in s.rows && row.position == s.rows[r].position
    ensures var n := Insert(Delete(s, r), row);
            Becomes(n, r, row) && Touches(s, n, {row.position})
  {
    hide Without;
  }

  lemma UpdateShows(s: Sim, r: nat, row: Row, p: Position)
    requires Numbered(s) && r in s.rows
    ensures Stays(Update(s, r, row), r, row) && Touches(s, Update(s, r, row), {p})
    ensures Stays(s, r, s.rows[r]) && Touches(s, s, {p})
  {
  }

  /** Numbers are below the next, and two elements are not on one cell. */
  lemma Apart(s: Sim, q: nat, r: nat)
    requires Agreement(s)
    ensures Numbered(s) && (r in s.rows ==> r < s.next)
    ensures q in s.rows && r in s.rows && q != r ==> s.rows[q].position != s.rows[r].position
  {
  }

  lemma DeleteShows(s: Sim, r: nat)
    requires Numbered(s) && r in s.rows
    ensures var n, p := Delete(s, r), s.rows[r].position;
            r !in n.rows && p !in n.grid && Touches(s, n, {p})
  {
    hide Without;
  }

  /** One visit decides the fate of its element. */
  lemma VisitDecides(s: Sim, r: nat, phase: Phase, fault: bool, env: Env)
    requires Sound(s) && r in s.rows && s.rows[r].kind == PhaseKind(phase) && Periods(env)
    ensures var n := Visit(s, r, phase, fault, env);
            Fate(n, r, s.rows[r], phase, fault, env) && Touches(s, n, {s.rows[r].position})
  {
    hide Agreement, Numbered, Total, Insert, Delete, Update, Becomes, Stays, Touches, Elapsed, Due, Alive;
    Apart(s, r, r);
    var row := s.rows[r];
    UpdateShows(s, r, row, row.position);
    match phase {
      case Hatching => ReplaceShows(s, r, Hatched(row, env.now));
      case Timing => ReplaceShows(s, r, Remains(row, env.now));
      case Lazing =>
        var since := if row.lastAction.Some? then row.lastAction.value else row.time;
        DueIs(env.now, since, env.timeLaziness);
        if row.energy > env.laziness {
          UpdateShows(s, r, row.(energy := row.energy - env.laziness), row.position);
        } else {
          ReplaceShows(s, r, Remains(row, env.now));
        }
      case Rotting =>
        DueIs(env.now, row.time, env.timeRot);
        DeleteShows(s, r);
        if row.size > env.sizeRot {
          UpdateShows(s, r, row.(size := row.size - env.sizeRot), row.position);
        }
    }
  }

  /** The cells of the elements of a list. */
  ghost function Cells(s: Sim, list: seq<nat>): set<Position>
    requires forall r :: r in list ==> r in s.rows
  {
    set r | r in list :: s.rows[r].position
  }

  /** A fate is not changed by what happens on other cells to other elements. */
  lemma FateStands(a: Sim, n: Sim, r: nat, row: Row, phase: Phase, fault: bool, env: Env, cells: set<Position>)
    requires Periods(env) && Fate(a, r, row, phase, fault, env) && Touches(a, n, cells)
    requires row.position !in cells && r < a.next
    requires r in a.rows ==> r in n.rows && n.rows[r] == a.rows[r]
    requires row.position in a.grid ==>
               var e := a.grid[row.position].id; e in a.rows ==> e in n.rows && n.rows[e] == a.rows[e]
    ensures Fate(n, r, row, phase, fault, env)
  {
    hide Elapsed;
  }

  lemma NothingTouched(s: Sim)
    ensures Cells(s, []) == {} && Touches(s, s, {})
  {
  }

  lemma NextGrows(s: Sim, n: Sim, x: set<Position>)
    requires Touches(s, n, x)
    ensures n.next >= s.next
  {
  }

  lemma TouchesBoth(s: Sim, a: Sim, n: Sim, x: set<Position>, y: set<Position>)
    requires Touches(s, a, x) && Touches(a, n, y)
    ensures Touches(s, n, x + y)
  {
  }

  /** The elements still to visit are others than the first, and as they were. */
  lemma RestApart(s: Sim, a: Sim, list: seq<nat>, kind: Kind)
    requires Visits(s, list, kind) && list != []
    requires forall q :: q in s.rows && q != list[0] ==> q in a.rows && a.rows[q] == s.rows[q]
    ensures list[0] in s.rows && list[0] !in list[1..]
    ensures forall q :: q in list[1..] ==> q in list && q in s.rows && q in a.rows && a.rows[q] == s.rows[q]
  {
    forall q | q in list[1..]
      ensures q in list && q != list[0]
    {
    }
  }

  /** They are on other cells. */
  lemma CellsApart(s: Sim, a: Sim, list: seq<nat>)
    requires Agreement(s) && list != [] && list[0] in s.rows && list[0] !in list[1..]
    requires forall q :: q in list[1..] ==> q in s.rows && q in a.rows && a.rows[q] == s.rows[q]
    ensures forall r :: r in list ==> r in s.rows
    ensures list[0] < s.next
    ensures s.rows[list[0]].position !in Cells(a, list[1..])
    ensures Cells(s, list) == {s.rows[list[0]].position} + Cells(a, list[1..])
  {
    hide Agreement, Numbered;
    var rest := list[1..];
    assert list == [list[0]] + rest;
    Apart(s, list[0], list[0]);
    forall q | q in rest
      ensures s.rows[q].position != s.rows[list[0]].position
    {
      Apart(s, q, list[0]);
    }
  }

  lemma FirstStands(s: Sim, a: Sim, n: Sim, list: seq<nat>, phase: Phase, fault: bool, env: Env)
    requires Agreement(a) && list != [] && list[0] in s.rows && Periods(env)
    requires Fate(a, list[0], s.rows[list[0]], phase, fault, env)
    requires forall q :: q in list[1..] ==> q in a.rows
    requires Touches(a, n, Cells(a, list[1..])) && s.rows[list[0]].position !in Cells(a, list[1..])
    requires list[0] !in list[1..] && list[0] < a.next
    requires forall q :: q in a.rows && q !in list[1..] ==> q in n.rows && n.rows[q] == a.rows[q]
    ensures Fate(n, list[0], s.rows[list[0]], phase, fault, env)
  {
    hide Fate, Touches, Agreement;
    var row := s.rows[list[0]];
    if row.position in a.grid {
      CellOf(a, row.position);
    }
    FateStands(a, n, list[0], row, phase, fault, env, Cells(a, list[1..]));
  }

  /** A phase over a list decides the fate of each of its elements, by the row it had when the phase
      began, and leaves every other element alone. */
  lemma {:induction false} WalkDecides(s: Sim, list: seq<nat>, phase: Phase, faults: seq<bool>, env: Env)
    requires Sound(s) && Visits(s, list, PhaseKind(phase)) && |faults| == |list| && Periods(env)
    ensures var n := Walk(s, list, phase, faults, env);
            && (forall k :: 0 <= k < |list| ==> Fate(n, list[k], s.rows[list[k]], phase, faults[k], env))
            && (forall q :: q in s.rows && q !in list ==> q in n.rows && n.rows[q] == s.rows[q])
            && Touches(s, n, Cells(s, list))
    decreases |list|
  {
    hide Agreement, Total, Visit, Alive, Visits, Fate, Touches, Cells;
    if list == [] {
      NothingTouched(s);
    } else {
      VisitedIn(s, list, PhaseKind(phase));
      var r, rest := list[0], list[1..];
      VisitKeeps(s, r, phase, faults[0], env);
      VisitDecides(s, r, phase, faults[0], env);
      var a := Visit(s, r, phase, faults[0], env);
      VisitsRest(s, a, list, PhaseKind(phase));
      WalkDecides(a, rest, phase, faults[1..], env);
      var n := Walk(a, rest, phase, faults[1..], env);
      RestApart(s, a, list, PhaseKind(phase));
      CellsApart(s, a, list);
      NextGrows(s, a, {s.rows[r].position});
      TouchesBoth(s, a, n, {s.rows[r].position}, Cells(a, rest));
      FirstStands(s, a, n, list, phase, faults[0], env);
      forall k | 0 <= k < |list|
        ensures Fate(n, list[k], s.rows[list[k]], phase, faults[k], env)
      {
        if k > 0 {
          assert list[k] == rest[k - 1] && faults[k] == faults[1..][k - 1];
        }
      }
    }
  }

  // ----- What comes from outside

  /** New eggs and food, each on a cell that is free when it comes. */
  predicate CanSprout(s: Sim, row: Row) {
    Inside(row.position, s.size) && row.position !in s.grid && !row.kind.Bug? && (row.kind.Egg? ==> row.energy > 0)
  }

  /** The sprouts that find their cell free, in order. */
  function Sprout(s: Sim, rows: seq<Row>): Sim
    decreases |rows|
  {
    if rows == [] then s
    else if CanSprout(s, rows[0]) then Sprout(Insert(s, rows[0]), rows[1..])
    else Sprout(s, rows[1..])
  }

  /** What came up weighs this much. */
  function Sprouting(s: Sim, rows: seq<Row>): nat
    decreases |rows|
  {
    if rows == [] then 0
    else if CanSprout(s, rows[0]) then Weight(rows[0]) + Sprouting(Insert(s, rows[0]), rows[1..])
    else Sprouting(s, rows[1..])
  }

  /** A new egg with energy, or food, comes up on a free cell of the world and nowhere else. */
  lemma SproutShows(s: Sim, row: Row)
    ensures var n, p := Sprout(s, [row]), row.position;
            if p.x < s.size.x && p.y < s.size.y && p !in s.grid
               && (row.kind.Food? || (row.kind.Egg? && row.energy > 0)) then
              && n.rows == s.rows[s.next := row] && n.grid == s.grid[p := Element(s.next, row.kind)]
              && n.foods == s.foods + (if row.kind.Food? then [s.next] else [])
              && n.eggs == s.eggs + (if row.kind.Egg? then [s.next] else []) && n.bugs == s.bugs
            else n == s
  {
    assert [row][1..] == [];
    assert s.foods + [] == s.foods && s.eggs + [] == s.eggs;
    var n := Insert(s, row);
    assert Sprout(n, []) == n && Sprout(s, []) == s;
  }

  lemma InsertKeeps(s: Sim, row: Row)
    requires Sound(s) && CanSprout(s, row)
    ensures Sound(Insert(s, row)) && Insert(s, row).size == s.size && Total(Insert(s, row)) == Total(s) + Weight(row)
  {
    InsertAliveOr(s, row);
    hide Agreement, Total, Alive;
    TotalInserted(s, row);
  }

  lemma InsertAliveOr(s: Sim, row: Row)
    requires Alive(s) && (row.kind.Food? || row.energy > 0)
    ensures Alive(Insert(s, row)) && Insert(s, row).size == s.size
  {
  }

  lemma {:induction false} SproutKeeps(s: Sim, rows: seq<Row>)
    requires Sound(s)
    ensures var n := Sprout(s, rows);
            Sound(n) && n.size == s.size && Total(n) == Total(s) + Sprouting(s, rows)
    decreases |rows|
  {
    hide Agreement, Total, Insert, CanSprout, Alive, Weight;
    if rows == [] {
    } else {
      if CanSprout(s, rows[0]) {
        InsertKeeps(s, rows[0]);
        SproutKeeps(Insert(s, rows[0]), rows[1..]);
      } else {
        SproutKeeps(s, rows[1..]);
      }
    }
  }

  /** What mutation makes of a code: its new length, and whether the interrupt that tells the bug fails. */
  datatype Change = Change(code: Energy, fault: bool)

  /** A bug old enough may mutate; `None` when the draws change nothing. */
  predicate Mutates(s: Sim, r: nat, change: Option<Change>, env: Env) {
    && r in s.rows && s.rows[r].kind.Bug? && change.Some?
    && env.timeMutate > 0 && Due(env.now, s.rows[r].time, env.timeMutate)
  }

  function Recode(s: Sim, r: nat, change: Option<Change>): Sim
    requires r in s.rows && change.Some?
  {
    Update(s, r, s.rows[r].(size := change.value.code))
  }

  /** `bugs_mutate`: nothing catches a code the tables refuse, or an interrupt that fails after the
      code was stored; the program ends. */
  function Mutate(s: Sim, list: seq<nat>, changes: seq<Option<Change>>, env: Env): (Sim, bool)
    requires |changes| == |list|
    decreases |list|
  {
    if list == [] then (s, false)
    else if !Mutates(s, list[0], changes[0], env) then Mutate(s, list[1..], changes[1..], env)
    else if !CodeFits(changes[0].value.code) then (s, true)
    else if changes[0].value.fault then (Recode(s, list[0], changes[0]), true)
    else Mutate(Recode(s, list[0], changes[0]), list[1..], changes[1..], env)
  }

  lemma MutatesWhen(s: Sim, r: nat, change: Option<Change>, env: Env)
    requires r in s.rows && s.rows[r].kind.Bug? && env.timeMutate > 0
    ensures Mutates(s, r, change, env) <==> change.Some? && Due(env.now, s.rows[r].time, env.timeMutate)
  {
  }

  /** With no period nothing mutates. */
  lemma {:induction false} MutateNever(s: Sim, list: seq<nat>, changes: seq<Option<Change>>, env: Env)
    requires env.timeMutate == 0 && |changes| == |list|
    ensures Mutate(s, list, changes, env) == (s, false)
    decreases |list|
  {
    if list == [] {
    } else {
      MutateNever(s, list[1..], changes[1..], env);
    }
  }

  /** A mutation the program does not survive. */
  predicate Ruins(s: Sim, r: nat, change: Option<Change>, env: Env) {
    Mutates(s, r, change, env) && (!CodeFits(change.value.code) || change.value.fault)
  }

  /** The program ends in this phase if and only if some bug of the list has such a mutation. */
  lemma {:induction false} MutateEnds(s: Sim, list: seq<nat>, changes: seq<Option<Change>>, env: Env)
    requires |changes| == |list|
    ensures Mutate(s, list, changes, env).1 <==>
            exists k :: 0 <= k < |list| && Ruins(s, list[k], changes[k], env)
    decreases |list|
  {
    hide Due, CodeFits;
    if list == [] {
    } else {
      var n := if Mutates(s, list[0], changes[0], env) then Recode(s, list[0], changes[0]) else s;
      MutateEnds(n, list[1..], changes[1..], env);
      assert forall k :: 0 <= k < |list[1..]| ==>
          (Ruins(n, list[1..][k], changes[1..][k], env) <==> Ruins(s, list[k + 1], changes[k + 1], env));
    }
  }

  /** By how much the codes that mutated grew, or shrank. */
  function Mutating(s: Sim, list: seq<nat>, changes: seq<Option<Change>>, env: Env): int
    requires |changes| == |list|
    decreases |list|
  {
    if list == [] then 0
    else if !Mutates(s, list[0], changes[0], env) then Mutating(s, list[1..], changes[1..], env)
    else if !CodeFits(changes[0].value.code) then 0
    else
      changes[0].value.code - s.rows[list[0]].size
      + if changes[0].value.fault then 0 else Mutating(Recode(s, list[0], changes[0]), list[1..], changes[1..], env)
  }

  lemma {:induction false} MutateKeeps(s: Sim, list: seq<nat>, changes: seq<Option<Change>>, env: Env)
    requires Sound(s) && |changes| == |list|
    ensures var n := Mutate(s, list, changes, env).0;
            Sound(n) && n.size == s.size && Total(n) == Total(s) + Mutating(s, list, changes, env)
    decreases |list|
  {
    hide Agreement, Total, Due, CodeFits;
    if list == [] {
    } else {
      if Mutates(s, list[0], changes[0], env) {
        RecodeKeeps(s, list[0], changes[0]);
        MutateKeeps(Recode(s, list[0], changes[0]), list[1..], changes[1..], env);
      } else {
        MutateKeeps(s, list[1..], changes[1..], env);
      }
    }
  }

  /** What mutation makes of one row: a new length of code exactly when the bug is due and the draws
      change it. */
  function Mutated(row: Row, change: Option<Change>, env: Env): Row {
    if env.timeMutate > 0 && Elapsed(env.now, row.time, env.timeMutate) && change.Some? then
      row.(size := change.value.code)
    else row
  }

  /** The whole phase, when it ends well: every bug has what its draws made of it, and nothing else
      has changed. */
  lemma {:induction false} MutateDecides(s: Sim, list: seq<nat>, changes: seq<Option<Change>>, env: Env)
    requires |changes| == |list| && Visits(s, list, Bug) && !Mutate(s, list, changes, env).1
    ensures var n := Mutate(s, list, changes, env).0;
            && n == s.(rows := n.rows) && n.rows.Keys == s.rows.Keys
            && (forall k :: 0 <= k < |list| ==> n.rows[list[k]] == Mutated(s.rows[list[k]], changes[k], env))
            && (forall q :: q in s.rows && q !in list ==> n.rows[q] == s.rows[q])
    decreases |list|
  {
    hide Due, Elapsed, CodeFits;
    if list == [] {
    } else {
      var r, rest := list[0], list[1..];
      var a := if Mutates(s, r, changes[0], env) then Recode(s, r, changes[0]) else s;
      if env.timeMutate > 0 {
        DueIs(env.now, s.rows[r].time, env.timeMutate);
      }
      VisitsRest(s, a, list, Bug);
      RestApart(s, a, list, Bug);
      MutateDecides(a, rest, changes[1..], env);
      var n := Mutate(s, list, changes, env).0;
      forall k | 0 <= k < |list|
        ensures n.rows[list[k]] == Mutated(s.rows[list[k]], changes[k], env)
      {
        if k > 0 {
          assert list[k] == rest[k - 1] && changes[k] == changes[1..][k - 1];
        }
      }
    }
  }

  lemma RecodeKeeps(s: Sim, r: nat, change: Option<Change>)
    requires Sound(s) && r in s.rows && s.rows[r].kind.Bug? && change.Some?
    ensures var n := Recode(s, r, change);
            Sound(n) && n.size == s.size && Total(n) == Total(s) + change.value.code - s.rows[r].size
  {
    hide Agreement, Total;
    var row := s.rows[r].(size := change.value.code);
    TotalUpdated(s, r, row);
    UpdateAlive(s, r, row);
  }

  // ----- Cycles

  /** All that a cycle does not decide itself: what comes up where, whether a source halts the program,
      which codes mutate to which length, whose timer interrupt fails, and what every bug asks for. */
  datatype Input = Input(env: Env, sprouts: seq<Row>, halted: bool, change: nat -> Option<Change>,
                         timer: bool, fault: nat -> bool, turn: nat -> Turn)

  function Each<T>(list: seq<nat>, f: nat -> T): (r: seq<T>)
    ensures |r| == |list|
  {
    seq(|list|, i requires 0 <= i < |list| => f(list[i]))
  }

  /** A phase over the whole list of its kind. */
  function Phased(s: Sim, phase: Phase, fault: nat -> bool, env: Env): Sim
    requires Sound(s) && Periods(env)
  {
    var list := ListOf(s, PhaseKind(phase));
    ListVisits(s, PhaseKind(phase));
    Walk(s, list, phase, Each(list, fault), env)
  }

  lemma PhasedKeeps(s: Sim, phase: Phase, fault: nat -> bool, env: Env)
    requires Sound(s) && Periods(env)
    ensures var n := Phased(s, phase, fault, env);
            Sound(n) && n.size == s.size && Total(n) <= Total(s)
  {
    hide Agreement, Total, Walk, Alive, Visits;
    var list := ListOf(s, PhaseKind(phase));
    ListVisits(s, PhaseKind(phase));
    WalkKeeps(s, list, phase, Each(list, fault), env);
  }

  /** A phase decides the fate of every element of its kind, and leaves every other element alone. */
  lemma PhasedDecides(s: Sim, phase: Phase, fault: nat -> bool, env: Env)
    requires Sound(s) && Periods(env)
    ensures var n := Phased(s, phase, fault, env);
            && NoOldComers(s, n)
            && forall r :: r in s.rows ==>
                 var kind := match phase case Hatching => Egg case Timing => Bug case Lazing => Bug case Rotting => Food;
                 if s.rows[r].kind == kind then Fate(n, r, s.rows[r], phase, fault(r), env) else Stays(n, r, s.rows[r])
  {
    hide Agreement, Total, Walk, Alive, Visits, Fate, Local;
    var list := ListOf(s, PhaseKind(phase));
    ListVisits(s, PhaseKind(phase));
    InList(s, PhaseKind(phase));
    WalkDecides(s, list, phase, Each(list, fault), env);
    forall r | r in s.rows && s.rows[r].kind == PhaseKind(phase)
      ensures Fate(Phased(s, phase, fault, env), r, s.rows[r], phase, fault(r), env)
    {
      var k :| 0 <= k < |list| && list[k] == r;
    }
  }

  /** What is new has a new number. */
  predicate NoOldComers(s: Sim, n: Sim) {
    n.next >= s.next && forall q :: q in n.rows && q < s.next ==> q in s.rows
  }

  lemma InList(s: Sim, kind: Kind)
    requires Agreement(s)
    ensures forall r :: r in s.rows ==> (r in ListOf(s, kind) <==> s.rows[r].kind == kind)
    ensures forall r :: r in ListOf(s, kind) ==> r in s.rows
  {
  }

  const NO_FAULT: nat -> bool := _ => false

  /** Up to the turns of the bugs: what comes up, eggs, mutations, and every 64 cycles the timer. */
  function Dawn(s: Sim, input: Input): (Sim, bool, int)
    requires Sound(s) && Periods(input.env)
  {
    SproutKeeps(s, input.sprouts);
    var s1 := Sprout(s, input.sprouts);
    if input.halted then (s1, true, Sprouting(s, input.sprouts)) else
    PhasedKeeps(s1, Hatching, NO_FAULT, input.env);
    var s2 := Phased(s1, Hatching, NO_FAULT, input.env);
    var changes := Each(s2.bugs, input.change);
    MutateKeeps(s2, s2.bugs, changes, input.env);
    var (s3, ruined) := Mutate(s2, s2.bugs, changes, input.env);
    var grown := Sprouting(s, input.sprouts) + Mutating(s2, s2.bugs, changes, input.env);
    (if input.timer && !ruined then Phased(s3, Timing, input.fault, input.env) else s3, ruined, grown)
  }

  lemma DawnKeeps(s: Sim, input: Input)
    requires Sound(s) && Periods(input.env)
    ensures var (n, aborted, supplied) := Dawn(s, input);
            Sound(n) && n.size == s.size && Total(n) <= Total(s) + supplied
  {
    hide Agreement, Total, Phased, Mutate, Sprout, Alive, Sprouting, Mutating;
    SproutKeeps(s, input.sprouts);
    var s1 := Sprout(s, input.sprouts);
    PhasedKeeps(s1, Hatching, NO_FAULT, input.env);
    var s2 := Phased(s1, Hatching, NO_FAULT, input.env);
    var changes := Each(s2.bugs, input.change);
    MutateKeeps(s2, s2.bugs, changes, input.env);
    PhasedKeeps(Mutate(s2, s2.bugs, changes, input.env).0, Timing, input.fault, input.env);
  }

  /** When the turns begin: an egg of the world with what came up has become a bug, if it is old enough,
      and that bug has not been mutated yet; an older bug has the code mutation made of it, or is food if
      its timer interrupt failed; eggs that are too young, and food, are as they were. */
  lemma DawnDecides(s: Sim, input: Input)
    requires Sound(s) && Periods(input.env) && !Dawn(s, input).1
    ensures var came, n, env := Sprout(s, input.sprouts), Dawn(s, input).0, input.env;
            && (!input.timer ==> forall r :: r in came.rows && came.rows[r].kind.Egg? ==>
                  Fate(n, r, came.rows[r], Hatching, false, env))
            && (forall r :: r in came.rows && came.rows[r].kind.Food? ==> Stays(n, r, came.rows[r]))
            && (forall r :: r in came.rows && came.rows[r].kind.Bug? ==>
                  Fate(n, r, Mutated(came.rows[r], input.change(r), env), Timing, input.timer && input.fault(r), env))
  {
    hide Agreement, Total, Phased, Sprout, Alive, Fate, Mutate, Mutating, Sprouting, Stays, Visits, Mutated, NoOldComers;
    var env := input.env;
    SproutKeeps(s, input.sprouts);
    var came := Sprout(s, input.sprouts);
    PhasedKeeps(came, Hatching, NO_FAULT, env);
    PhasedDecides(came, Hatching, NO_FAULT, env);
    var hatched := Phased(came, Hatching, NO_FAULT, env);
    MutateKeeps(hatched, hatched.bugs, Each(hatched.bugs, input.change), env);
    var mutated := Mutate(hatched, hatched.bugs, Each(hatched.bugs, input.change), env).0;
    MutateAll(hatched, input.change, env);
    PhasedDecides(mutated, Timing, input.fault, env);
    forall r | r in came.rows
      ensures came.rows[r].kind.Food? ==> Stays(Dawn(s, input).0, r, came.rows[r])
      ensures came.rows[r].kind.Egg? && !input.timer ==> Fate(Dawn(s, input).0, r, came.rows[r], Hatching, false, env)
      ensures came.rows[r].kind.Bug? ==>
                Fate(Dawn(s, input).0, r, Mutated(came.rows[r], input.change(r), env), Timing,
                     input.timer && input.fault(r), env)
    {
      if came.rows[r].kind.Egg? {
        HatchedStands(hatched, mutated, r, came.rows[r], input, env);
      } else {
        StaysMutated(hatched, mutated, r, came.rows[r], input, env);
        var row := if came.rows[r].kind.Bug? then Mutated(came.rows[r], input.change(r), env) else came.rows[r];
        StaysIn(mutated, r, row);
      }
    }
  }

  lemma MutateAll(s: Sim, change: nat -> Option<Change>, env: Env)
    requires Sound(s) && !Mutate(s, s.bugs, Each(s.bugs, change), env).1
    ensures AllMutated(s, Mutate(s, s.bugs, Each(s.bugs, change), env).0, change, env)
  {
    hide Agreement, Total, Alive, Mutate, Mutated, Visits;
    var n := Mutate(s, s.bugs, Each(s.bugs, change), env).0;
    ListVisits(s, Bug);
    InList(s, Bug);
    MutateDecides(s, s.bugs, Each(s.bugs, change), env);
    forall r | r in s.rows && s.rows[r].kind.Bug?
      ensures n.rows[r] == Mutated(s.rows[r], change(r), env)
    {
      var k :| 0 <= k < |s.bugs| && s.bugs[k] == r;
    }
  }

  predicate AllMutated(s: Sim, n: Sim, change: nat -> Option<Change>, env: Env) {
    && n == s.(rows := n.rows) && n.rows.Keys == s.rows.Keys
    && forall r :: r in s.rows ==>
         n.rows[r] == if s.rows[r].kind.Bug? then Mutated(s.rows[r], change(r), env) else s.rows[r]
  }

  lemma StaysIn(a: Sim, r: nat, row: Row)
    requires Stays(a, r, row)
    ensures r in a.rows && a.rows[r] == row
  {
  }

  lemma StaysMutated(s: Sim, n: Sim, r: nat, row: Row, input: Input, env: Env)
    requires AllMutated(s, n, input.change, env) && Stays(s, r, row) && Periods(env)
    ensures Stays(n, r, if row.kind.Bug? then Mutated(row, input.change(r), env) else row)
    ensures Fate(n, r, if row.kind.Bug? then Mutated(row, input.change(r), env) else row, Timing, false, env)
    ensures (if row.kind.Bug? then Mutated(row, input.change(r), env) else row).kind == row.kind
  {
    hide Elapsed;
  }

  /** What has just hatched is not due to mutate. */
  lemma HatchedStands(s: Sim, n: Sim, r: nat, row: Row, input: Input, env: Env)
    requires Periods(env) && row.kind.Egg?
    requires AllMutated(s, n, input.change, env) && Fate(s, r, row, Hatching, false, env)
    ensures Fate(n, r, row, Hatching, false, env)
  {
  }

  /** Up to and including the turns. */
  function FirstHalf(s: Sim, input: Input): (Sim, bool, int)
    requires Sound(s) && Periods(input.env)
  {
    DawnKeeps(s, input);
    var (s1, halted, grown) := Dawn(s, input);
    if halted then (s1, true, grown) else
    var turns := Each(s1.bugs, input.turn);
    var (s2, aborted) := BugsRun(s1, s1.bugs, turns, input.env);
    (s2, aborted, grown + FatalCodes(s1, s1.bugs, turns, input.env))
  }

  lemma FirstHalfKeeps(s: Sim, input: Input)
    requires Sound(s) && Periods(input.env)
    ensures var (n, aborted, supplied) := FirstHalf(s, input);
            Sound(n) && n.size == s.size && Total(n) <= Total(s) + supplied
  {
    hide Agreement, Total, Dawn, BugsRun, Alive, FatalCodes;
    DawnKeeps(s, input);
    var s1 := Dawn(s, input).0;
    BugsRunKeeps(s1, s1.bugs, Each(s1.bugs, input.turn), input.env);
  }

  /** The phases after the turns. */
  function SecondHalf(s: Sim, env: Env): Sim
    requires Sound(s) && Periods(env)
  {
    PhasedKeeps(s, Lazing, NO_FAULT, env);
    Phased(Phased(s, Lazing, NO_FAULT, env), Rotting, NO_FAULT, env)
  }

  lemma SecondHalfKeeps(s: Sim, env: Env)
    requires Sound(s) && Periods(env)
    ensures var n := SecondHalf(s, env);
            Sound(n) && n.size == s.size && Total(n) <= Total(s)
  {
    hide Agreement, Total, Phased, Alive;
    PhasedKeeps(s, Lazing, NO_FAULT, env);
    PhasedKeeps(Phased(s, Lazing, NO_FAULT, env), Rotting, NO_FAULT, env);
  }

  /** After the turns: each bug pays for its laziness, measured from what it did in this very cycle, and
      each food rots; what a bug left behind that died of laziness does not rot yet. */
  lemma DuskDecides(s: Sim, env: Env)
    requires Sound(s) && Periods(env)
    ensures var n := SecondHalf(s, env);
            forall r :: r in s.rows ==>
              match s.rows[r].kind
              case Bug => Fate(n, r, s.rows[r], Lazing, false, env)
              case Food => Fate(n, r, s.rows[r], Rotting, false, env)
              case Egg => Stays(n, r, s.rows[r])
  {
    hide Agreement, Total, Phased, Alive, Fate, Stays, NoOldComers;
    PhasedKeeps(s, Lazing, NO_FAULT, env);
    PhasedDecides(s, Lazing, NO_FAULT, env);
    var a := Phased(s, Lazing, NO_FAULT, env);
    PhasedKeeps(a, Rotting, NO_FAULT, env);
    PhasedDecides(a, Rotting, NO_FAULT, env);
    var n := Phased(a, Rotting, NO_FAULT, env);
    forall r | r in s.rows
      ensures match s.rows[r].kind
              case Bug => Fate(n, r, s.rows[r], Lazing, false, env)
              case Food => Fate(n, r, s.rows[r], Rotting, false, env)
              case Egg => Stays(n, r, s.rows[r])
    {
      Apart(s, r, r);
      if s.rows[r].kind.Bug? {
        LazinessStands(s, a, n, r, s.rows[r], env);
      } else {
        StaysIn(a, r, s.rows[r]);
      }
    }
  }

  lemma LazinessStands(s: Sim, a: Sim, n: Sim, r: nat, row: Row, env: Env)
    requires Periods(env) && Fate(a, r, row, Lazing, false, env) && row.kind.Bug? && r < s.next
    requires NoOldComers(s, a) && NoOldComers(a, n) && Agreement(n)
    requires forall q :: q in a.rows ==>
               if a.rows[q].kind.Food? then Fate(n, q, a.rows[q], Rotting, false, env) else Stays(n, q, a.rows[q])
    ensures Fate(n, r, row, Lazing, false, env)
  {
    hide Agreement;
    if row.position in a.grid {
      var e := a.grid[row.position].id;
      if e in a.rows {
        MemberOf(n, e);
      }
    }
  }

  /** A cycle: the new state, whether the program ended or got stuck in it, and what was supplied. */
  function OneCycle(s: Sim, input: Input): (Sim, bool, int)
    requires Sound(s) && Periods(input.env)
  {
    FirstHalfKeeps(s, input);
    var (n, aborted, supplied) := FirstHalf(s, input);
    (if aborted then n else SecondHalf(n, input.env), aborted, supplied)
  }

  lemma OneCycleKeeps(s: Sim, input: Input)
    requires Sound(s) && Periods(input.env)
    ensures var (n, aborted, supplied) := OneCycle(s, input);
            Sound(n) && n.size == s.size && Total(n) <= Total(s) + supplied
  {
    hide Agreement, Total, SecondHalf, FirstHalf, Alive;
    FirstHalfKeeps(s, input);
    SecondHalfKeeps(FirstHalf(s, input).0, input.env);
  }

  predicate Regular(inputs: seq<Input>) {
    forall k :: 0 <= k < |inputs| ==> Periods(inputs[k].env)
  }

  /** A run of cycles, whether it was cut short, and all that was supplied during it. */
  function Run(s: Sim, inputs: seq<Input>): (r: (Sim, bool, int))
    requires Sound(s) && Regular(inputs)
    ensures Sound(r.0)
    decreases |inputs|
  {
    if inputs == [] then (s, false, 0)
    else
      var (n, aborted, supplied) := OneCycle(s, inputs[0]);
      OneCycleKeeps(s, inputs[0]);
      if aborted then (n, true, supplied)
      else
        var (end, cut, more) := Run(n, inputs[1..]);
        (end, cut, supplied + more)
  }

  /** Over any run, whatever the programs do and the draws give: grid, rows and lists agree, what
      is alive has energy, and there is no more matter than there was and was supplied. */
  lemma {:induction false} RunKeeps(s: Sim, inputs: seq<Input>)
    requires Sound(s) && Regular(inputs)
    ensures var (n, cut, supplied) := Run(s, inputs);
            Agreement(n) && Alive(n) && n.size == s.size && Total(n) <= Total(s) + supplied
    decreases |inputs|
  {
    hide Agreement, Total, OneCycle, Alive;
    if inputs == [] {
    } else {
      OneCycleKeeps(s, inputs[0]);
      var (n, aborted, supplied) := OneCycle(s, inputs[0]);
      if !aborted {
        RunKeeps(n, inputs[1..]);
      }
    }
  }

  // ----- Runs and sprouts in pieces

  lemma SproutNothing(s: Sim)
    ensures Sprout(s, []) == s
  {
  }

  lemma {:induction false} SproutSplit(s: Sim, a: seq<Row>, b: seq<Row>)
    ensures Sprout(s, a + b) == Sprout(Sprout(s, a), b)
    decreases |a|
  {
    hide Insert, CanSprout;
    if a == [] {
      assert a + b == b;
    } else {
      assert (a + b)[1..] == a[1..] + b;
      SproutSplit(if CanSprout(s, a[0]) then Insert(s, a[0]) else s, a[1..], b);
    }
  }

  /** A cycle goes on after what comes before the turns, and after the turns, only when the program has not
      ended there; every bug there is when the turns begin has the turn of its own program. */
  lemma CycleDecides(s: Sim, input: Input, turns: seq<Turn>)
    requires Sound(s) && Periods(input.env) && |turns| == |Dawn(s, input).0.bugs|
    requires forall k :: 0 <= k < |turns| ==> turns[k] == input.turn(Dawn(s, input).0.bugs[k])
    ensures var (n, halted, _) := Dawn(s, input);
            && Sound(n)
            && var (m, aborted) := BugsRun(n, n.bugs, turns, input.env);
               && Sound(m)
               && OneCycle(s, input).0 == (if halted then n else if aborted then m else SecondHalf(m, input.env))
               && OneCycle(s, input).1 == (halted || aborted)
  {
    hide Agreement, Total, Dawn, BugsRun, SecondHalf, Alive, FatalCodes;
    DawnKeeps(s, input);
    var n := Dawn(s, input).0;
    assert turns == Each(n.bugs, input.turn);
    BugsRunKeeps(n, n.bugs, turns, input.env);
  }

  /** A run of no cycles changes nothing, and one that was cut short does not go on. */
  lemma {:induction false} RunCut(s: Sim, inputs: seq<Input>, more: seq<Input>)
    requires Sound(s) && Regular(inputs) && Regular(inputs + more)
    ensures inputs == [] ==> Run(s, inputs) == (s, false, 0)
    ensures Run(s, inputs).1 ==> Run(s, inputs + more) == Run(s, inputs)
    decreases |inputs|
  {
    hide Agreement, Total, OneCycle, Alive;
    if inputs == [] {
    } else {
      OneCycleKeeps(s, inputs[0]);
      assert (inputs + more)[0] == inputs[0] && (inputs + more)[1..] == inputs[1..] + more;
      if !OneCycle(s, inputs[0]).1 {
        RunCut(OneCycle(s, inputs[0]).0, inputs[1..], more);
      }
    }
  }

  /** A run that was not cut short goes on with the next cycle. */
  lemma {:induction false} RunSplit(s: Sim, inputs: seq<Input>, next: Input)
    requires Sound(s) && Regular(inputs) && Regular(inputs + [next]) && Periods(next.env)
    requires !Run(s, inputs).1
    ensures Run(s, inputs + [next]).0 == OneCycle(Run(s, inputs).0, next).0
    ensures Run(s, inputs + [next]).1 == OneCycle(Run(s, inputs).0, next).1
    decreases |inputs|
  {
    hide Agreement, Total, OneCycle, Alive;
    if inputs == [] {
      assert inputs + [next] == [next];
      OneCycleKeeps(s, next);
    } else {
      assert (inputs + [next])[1..] == inputs[1..] + [next];
      OneCycleKeeps(s, inputs[0]);
      RunSplit(OneCycle(s, inputs[0]).0, inputs[1..], next);
    }
  }
}
