/** A bug in the world: the program that runs on its CPU asks for actions, the world carries them out
    and answers. One cycle of `TimedActions` and one turn of `Cycle` are two views of the same run. */
module Lives {
  import opened Options
  import opened Words
  import opened MemoryModel
  import opened MachineModel
  import opened Movement
  import opened WorldModel
  import opened Simulation
  import opened Actions
  import T = TimedActions
  import C = Cycle

  /** The costs of the actions that only look. */
  datatype Fees = Fees(nothing: Energy, myself: Energy, detect: Energy, info: Energy)

  datatype Laws = Laws(env: Env, fees: Fees, durations: T.Durations, alu: Alu)

  /** What neither the bug nor the state of the world decides: the damage of a blow, whether its target
      can be told and at which address that fails, the length of the mutated code of an egg, and the
      number of an element in the database. */
  datatype Chance = Chance(damage: Energy, fault: bool, address: Word, code: Energy, id: Word)

  /** An action that was asked for, with the energy found in G0, and how it ended. */
  datatype Asked = Asked(data: HalfWord, energy: Word, chance: Chance, end: End)

  /** A bug and its world after some instructions of a cycle, what it asked for and what it was told. */
  datatype Life = Life(s: Sim, b: T.Brain, end: T.Ending, asked: seq<Asked>, responses: seq<T.Response>)

  // ----- What a bug asks for

  /** The action the world is asked for by the instruction at PC, now that its time has come. */
  function Asks(b: T.Brain, now: Time, durations: T.Durations): Option<HalfWord> {
    if !b.m.running || !InRange(b.m.mem, b.m.regs[PC], 4) || Fetch(b.m).code != T.WORLD then None
    else
      var data := Fetch(b.m).data;
      if b.actionTime.Some? then if b.actionTime.value <= now then Some(data) else None
      else
        match T.Duration(durations, data)
        case None => None
        case Some(d) => if T.Dates(Plus(now, d), now) && Plus(now, d) <= now then Some(data) else None
  }

  /** An action whose code changed while it waited into one that does not exist costs nothing. */
  function ActionOf(data: HalfWord, energy: Word, chance: Chance, fees: Fees): C.Action {
    if data == 0x00 then C.Sense(fees.nothing)
    else if 0x10 <= data <= 0x14 then C.Sense(fees.myself)
    else if data == 0x20 then C.Sense(fees.detect)
    else if 0x30 <= data <= 0x34 then C.Sense(fees.info)
    else if data == 0x40 || data == 0x41 then C.Go
    else if data == 0x42 then C.Rotate(Left)
    else if data == 0x43 then C.Rotate(Right)
    else if data == 0x50 then C.Strike(energy, chance.damage, chance.fault)
    else if data == 0x60 then C.Feed
    else if data == 0x70 then C.Lay(energy, chance.code)
    else C.Sense(0)
  }

  // ----- What a bug is told

  function KindNumber(kind: Kind): Word {
    match kind case Egg => 1 case Bug => 2 case Food => 3
  }

  /** What there is to know about an element; food has no number, energy or orientation. */
  function Told(row: Row, info: int, id: Word): Option<(Word, Word)> {
    if info == 1 then Some((row.size, 0))
    else if info == 3 then Some((row.position.x, row.position.y))
    else if row.kind.Food? then None
    else if info == 0 then Some((id, 0))
    else if info == 2 then Some((row.energy, 0))
    else Some((Ordinal(row.orientation), 0))
  }

  /** What is in front of a bug. */
  function Ahead(s: Sim, bug: nat): Option<Row>
    requires Sound(s) && bug in s.bugs
  {
    MemberOf(s, bug);
    var front := FrontOf(s, bug);
    if front !in s.grid then None
    else
      CellOf(s, front);
      Some(s.rows[s.grid[front].id])
  }

  /** What an action that was carried out finds out, if it can: from the bug and what is ahead of it,
      and for a meal from what was ahead before. */
  function Findings(data: HalfWord, mine: Row, ahead: Option<Row>, eaten: Option<Row>, id: Word): Option<(Word, Word)> {
    if 0x10 <= data <= 0x14 then Told(mine, data - 0x10, id)
    else if data == 0x20 then Some((if ahead.Some? then KindNumber(ahead.value.kind) else 0, 0))
    else if 0x30 <= data <= 0x34 then if ahead.Some? then Told(ahead.value, data - 0x30, id) else None
    else if data == 0x60 && eaten.Some? then Some((eaten.value.size, 0))
    else Some((0, 0))
  }

  function ResponseOf(before: Sim, r: Result, bug: nat, data: HalfWord, chance: Chance): T.Response
    requires Sound(before) && Sound(r.s) && bug in before.bugs && bug in r.s.bugs
  {
    match r.end
    case Success =>
      MemberOf(r.s, bug);
      (match Findings(data, r.s.rows[bug], Ahead(r.s, bug), Ahead(before, bug), chance.id)
       case None => T.Failure
       case Some(found) => T.Answer(found.0, found.1))
    case ActionError => T.Failure
    case BugDeath => T.Death
    case EventFault => T.Broken(chance.address)
    case DatabaseError => T.Refusal
  }

  // ----- A cycle of the bug in its world

  /** One instruction, and what it asks of the world. */
  function LiveNext(s: Sim, bug: nat, b: T.Brain, chance: Chance, laws: Laws): Life
    requires Sound(s) && bug in s.bugs
  {
    match Asks(b, laws.env.now, laws.durations)
    case None =>
      var (n, e) := T.BugNext(b, laws.env.now, laws.durations, laws.alu, T.Failure);
      Life(s, n, e, [], [T.Failure])
    case Some(data) =>
      var action := ActionOf(data, b.m.regs[G0], chance, laws.fees);
      C.ActKeeps(s, bug, action, laws.env);
      var r := C.Act(s, bug, action, laws.env);
      var response := ResponseOf(s, r, bug, data, chance);
      var (n, e) := T.BugNext(b, laws.env.now, laws.durations, laws.alu, response);
      Life(r.s, n, e, [Asked(data, b.m.regs[G0], chance, r.end)], [response])
  }

  lemma LiveNextKeeps(s: Sim, bug: nat, b: T.Brain, chance: Chance, laws: Laws)
    requires Sound(s) && bug in s.bugs
    ensures var n := LiveNext(s, bug, b, chance, laws); Sound(n.s) && bug in n.s.bugs && n.s.size == s.size
  {
    hide Sound, Asks, C.Act, T.BugNext, ResponseOf, ActionOf;
    var asks := Asks(b, laws.env.now, laws.durations);
    if asks.Some? {
      C.ActKeeps(s, bug, ActionOf(asks.value, b.m.regs[G0], chance, laws.fees), laws.env);
    }
  }

  /** The instructions of one cycle; `chance` is drawn for each. */
  function LiveExecute(s: Sim, bug: nat, b: T.Brain, cycles: nat, chance: nat -> Chance, laws: Laws): Life
    requires Sound(s) && bug in s.bugs
    decreases cycles
  {
    if !b.m.running || cycles == 0 then Life(s, b, T.Ran(UpdateNone), [], [])
    else
      var n := LiveNext(s, bug, b, chance(cycles), laws);
      LiveNextKeeps(s, bug, b, chance(cycles), laws);
      if !n.end.Ran? then n
      else
        var rest := LiveExecute(n.s, bug, n.b, cycles - 1, chance, laws);
        rest.(asked := n.asked + rest.asked, responses := n.responses + rest.responses)
  }

  // ----- The view of the CPU

  /** The answers of a cycle, by the number of instructions left. */
  function Respond(responses: seq<T.Response>, cycles: nat): nat -> T.Response {
    (k: nat) => if k <= cycles && cycles - k < |responses| then responses[cycles - k] else T.Failure
  }

  /** A cycle only depends on the answers it gets. */
  lemma {:induction false} ExecuteSame(b: T.Brain, cycles: nat, laws: Laws, f: nat -> T.Response, g: nat -> T.Response)
    requires forall k: nat :: 0 < k <= cycles ==> f(k) == g(k)
    ensures T.BugExecute(b, cycles, laws.env.now, laws.durations, laws.alu, f) ==
            T.BugExecute(b, cycles, laws.env.now, laws.durations, laws.alu, g)
    decreases cycles
  {
    hide T.BugNext;
    if !b.m.running || cycles == 0 {
    } else {
      var (n, e) := T.BugNext(b, laws.env.now, laws.durations, laws.alu, f(cycles));
      ExecuteSame(n, cycles - 1, laws, f, g);
    }
  }

  /** For the CPU it is a cycle in which the answers are what the world made of the actions. */
  lemma {:induction false} LifeIsCycle(s: Sim, bug: nat, b: T.Brain, cycles: nat, chance: nat -> Chance, laws: Laws)
    requires Sound(s) && bug in s.bugs
    ensures var life := LiveExecute(s, bug, b, cycles, chance, laws);
            (life.b, life.end) == T.BugExecute(b, cycles, laws.env.now, laws.durations, laws.alu,
                                               Respond(life.responses, cycles))
    decreases cycles
  {
    hide Sound, T.BugNext, Asks, ResponseOf, C.Act, ActionOf;
    if !b.m.running || cycles == 0 {
    } else {
      var n := LiveNext(s, bug, b, chance(cycles), laws);
      LiveNextKeeps(s, bug, b, chance(cycles), laws);
      var all := Respond(LiveExecute(s, bug, b, cycles, chance, laws).responses, cycles);
      if n.end.Ran? {
        var rest := LiveExecute(n.s, bug, n.b, cycles - 1, chance, laws);
        LifeIsCycle(n.s, bug, n.b, cycles - 1, chance, laws);
        ExecuteSame(n.b, cycles - 1, laws, all, Respond(rest.responses, cycles - 1));
      }
    }
  }

  // ----- The view of the world

  function ActionsOf(asked: seq<Asked>, fees: Fees): seq<C.Action> {
    seq(|asked|, i requires 0 <= i < |asked| => ActionOf(asked[i].data, asked[i].energy, asked[i].chance, fees))
  }

  function LastOf(end: T.Ending): C.Last {
    match end case Fault(_) => C.Crashes case Aborted => C.Aborts case _ => C.Rests
  }

  /** What `bugs_run` makes of the end of a cycle. */
  function Aftermath(s: Sim, bug: nat, end: T.Ending, now: Time): (Sim, bool)
    requires bug in s.rows
  {
    match end
    case Fault(_) => (Kill(s, bug, now), false)
    case Died => (Kill(s, bug, now), false)
    case Aborted => (s, true)
    case _ => (s, false)
  }

  /** How an instruction ends that asked for an action that ended this way. */
  predicate EndsBy(end: T.Ending, cause: End) {
    match cause
    case Success => end == T.Ran(UpdateNone)
    case ActionError => end == T.Ran(UpdateNone)
    case EventFault => end.Ran? || end.Fault?
    case BugDeath => end.Died?
    case DatabaseError => end.Aborted?
  }

  /** An action that was carried out, well or not. */
  predicate Carried(end: End) {
    end.Success? || end.ActionError?
  }

  function Deeds(asked: seq<Asked>, now: Time): seq<T.Deed> {
    if asked == [] then []
    else
      (if Carried(asked[0].end) then [T.Deed(now, asked[0].data, asked[0].energy)] else [])
      + Deeds(asked[1..], now)
  }

  lemma DeedsOne(a: Asked, now: Time)
    ensures Deeds([a], now) == if Carried(a.end) then [T.Deed(now, a.data, a.energy)] else []
  {
  }

  lemma InterruptKeepsDeeds(b: T.Brain, code: Byte, g1: Word, g2: Word)
    ensures var n := T.BugInterrupt(b, code, g1, g2).0; n.done == b.done && n.lastAction == b.lastAction
  {
    hide Interrupt, Enabled;
  }

  lemma PerformKeepsDeeds(b: T.Brain, alu: Alu, inst: Instruction)
    ensures var n := T.BugPerform(b, alu, inst).0; n.done == b.done && n.lastAction == b.lastAction
  {
    hide T.BugInterrupt, Perform, OperationOf;
    InterruptKeepsDeeds(b, INTERRUPT_SOFTWARE, inst.data, 0);
    if alu(b.m.regs, inst).DivisionByZero? {
      InterruptKeepsDeeds(b, INTERRUPT_DIVISION, b.m.regs[PC], alu(b.m.regs, inst).dividend);
    }
  }

  /** What follows an instruction does not change what was done, nor a death or an end of the program. */
  lemma SettleKeepsDeeds(b: T.Brain, e: T.Ending, code: Byte)
    ensures var (n, end) := T.Settle((b, e), code);
            && n.done == b.done && n.lastAction == b.lastAction
            && (end.Died? <==> e.Died?) && (end.Aborted? <==> e.Aborted?)
  {
    hide T.BugInterrupt;
    InterruptKeepsDeeds(b, INTERRUPT_INSTRUCTION, b.m.regs[PC], code);
    match e {
      case Fault(MemoryError(a)) => InterruptKeepsDeeds(b, INTERRUPT_MEMORY, b.m.regs[PC], a);
      case BadAction(data) => InterruptKeepsDeeds(b, INTERRUPT_WORLDACTION, b.m.regs[PC], data);
      case _ =>
    }
  }

  /** Without asking the world nothing is done, nobody dies of an action, and no action error leaves. */
  lemma UnaskedEnds(b: T.Brain, laws: Laws)
    requires b.m.running && Asks(b, laws.env.now, laws.durations).None?
    ensures var (n, e) := T.BugNext(b, laws.env.now, laws.durations, laws.alu, T.Failure);
            n.done == b.done && n.lastAction == b.lastAction && !e.Died? && !e.BadAction?
  {
    hide T.BugPerform, T.Settle, Fetch, T.Duration;
    T.BugNextEscapes(b, laws.env.now, laws.durations, laws.alu, T.Failure);
    PerformKeepsDeeds(b, laws.alu, T.InstructionAt(b.m));
    var (n, e) := T.Instruct(b, laws.env.now, laws.durations, laws.alu, T.Failure);
    SettleKeepsDeeds(n, e, T.CodeAt(b.m));
  }

  /** Moving PC does not touch what was told. */
  lemma ToldStays(b: T.Brain, n: T.Brain, data: HalfWord, r: T.Response)
    ensures T.Told(b, n, data, r) || T.Told(b.(actionTime := n.actionTime), n, data, r) ==>
              T.Told(b, n.(m := AdvancePC(n.m)), data, r)
    ensures forall t :: T.Told(b.(actionTime := t), n, data, r) ==> T.Told(b, n.(m := AdvancePC(n.m)), data, r)
  {
  }

  /** What an instruction makes of an answer: the action is done and dated, or the cycle ends. */
  lemma AskedEnds(b: T.Brain, laws: Laws, data: HalfWord, r: T.Response)
    requires Asks(b, laws.env.now, laws.durations) == Some(data)
    ensures var (n, e) := T.BugNext(b, laws.env.now, laws.durations, laws.alu, r);
            var known := T.Duration(laws.durations, data).Some?;
            if !known || r.Answer? || r.Failure? then
              && e == T.Ran(UpdateNone) && n.lastAction == Some(laws.env.now)
              && n.done == b.done + [T.Deed(laws.env.now, data, b.m.regs[G0])]
              && T.Told(b, n, data, if known then r else T.Failure)
            else
              && n.done == b.done && n.lastAction == b.lastAction
              && (e.Died? <==> r.Death?) && (e.Aborted? <==> r.Refusal?) && (r.Broken? ==> e.Ran? || e.Fault?)
  {
    hide T.BugInterrupt, Fetch, T.Duration, T.Complete, T.Told;
    var answer := if T.Duration(laws.durations, data).Some? then r else T.Failure;
    T.CompleteMeans(b, data, laws.env.now, answer);
    T.CompleteMeans(b.(actionTime := Some(laws.env.now)), data, laws.env.now, answer);
    ToldStays(b, T.Complete(b, data, laws.env.now, answer), data, answer);
    ToldStays(b, T.Complete(b.(actionTime := Some(laws.env.now)), data, laws.env.now, answer), data, answer);
    var (n, e) := T.Instruct(b, laws.env.now, laws.durations, laws.alu, r);
    SettleKeepsDeeds(n, e, T.CodeAt(b.m));
  }

  /** An action that does not exist costs nothing and cannot fail. */
  lemma NothingSucceeds(s: Sim, bug: nat, env: Env)
    requires Sound(s) && bug in s.bugs
    ensures C.Act(s, bug, C.Sense(0), env).end.Success?
  {
    hide Agreement, Total;
    BugAlive(s, bug);
  }

  lemma UnknownSenses(durations: T.Durations, data: HalfWord, energy: Word, chance: Chance, fees: Fees)
    requires T.Duration(durations, data).None?
    ensures ActionOf(data, energy, chance, fees) == C.Sense(0)
  {
  }

  /** The bug and its world after an instruction: they agree on how it ended, on what was done, and on
      the action it was. */
  predicate InStep(s: Sim, bug: nat, b: T.Brain, n: Life, laws: Laws)
    requires Sound(s) && bug in s.bugs
  {
    && !n.end.BadAction?
    && (if n.asked == [] then n.s == s && !n.end.Died? && n.b.lastAction == b.lastAction
        else
          var a := n.asked[0];
          && n.asked == [a] && EndsBy(n.end, a.end)
          && C.Act(s, bug, ActionOf(a.data, a.energy, a.chance, laws.fees), laws.env) == Result(n.s, a.end)
          && n.b.lastAction == if Carried(a.end) then Some(laws.env.now) else b.lastAction)
    && n.b.done == b.done + Deeds(n.asked, laws.env.now)
  }

  lemma NextInStep(s: Sim, bug: nat, b: T.Brain, chance: Chance, laws: Laws)
    requires Sound(s) && bug in s.bugs && b.m.running
    ensures InStep(s, bug, b, LiveNext(s, bug, b, chance, laws), laws)
  {
    hide Sound, Asks, C.Act, T.BugNext, ActionOf, T.Duration, Ahead, Findings;
    var asks := Asks(b, laws.env.now, laws.durations);
    var n := LiveNext(s, bug, b, chance, laws);
    if asks.None? {
      UnaskedEnds(b, laws);
    } else {
      var data := asks.value;
      AskedEnds(b, laws, data, n.responses[0]);
      DeedsOne(n.asked[0], laws.env.now);
      if T.Duration(laws.durations, data).None? {
        UnknownSenses(laws.durations, data, b.m.regs[G0], chance, laws.fees);
        NothingSucceeds(s, bug, laws.env);
      }
    }
  }

  // ----- The two views agree

  /** For the world it is a turn: the actions asked for, one after the other, and what their errors
      and the end of the cycle make of the bug. */
  lemma {:induction false} LifeIsTurn(s: Sim, bug: nat, b: T.Brain, cycles: nat, chance: nat -> Chance, laws: Laws)
    requires Sound(s) && bug in s.bugs
    ensures var life := LiveExecute(s, bug, b, cycles, chance, laws);
            && Sound(life.s) && bug in life.s.bugs && bug in life.s.rows
            && C.TakeTurn(s, bug, C.Turn(ActionsOf(life.asked, laws.fees), LastOf(life.end)), laws.env) ==
               Aftermath(life.s, bug, life.end, laws.env.now)
    decreases cycles
  {
    hide Agreement, Total, Alive, C.Act, LiveNext, Kill, ActionOf;
    BugAlive(s, bug);
    if !b.m.running || cycles == 0 {
    } else {
      var n := LiveNext(s, bug, b, chance(cycles), laws);
      LiveNextKeeps(s, bug, b, chance(cycles), laws);
      NextInStep(s, bug, b, chance(cycles), laws);
      BugAlive(n.s, bug);
      var life := LiveExecute(s, bug, b, cycles, chance, laws);
      if n.end.Ran? {
        var rest := LiveExecute(n.s, bug, n.b, cycles - 1, chance, laws);
        LifeIsTurn(n.s, bug, n.b, cycles - 1, chance, laws);
        if n.asked == [] {
          assert life.asked == rest.asked;
        } else {
          assert ActionsOf(life.asked, laws.fees)[1..] == ActionsOf(rest.asked, laws.fees);
        }
      } else if n.asked != [] {
        assert ActionsOf(life.asked, laws.fees)[1..] == [];
      }
    }
  }

  lemma {:induction false} DeedsSplit(a: seq<Asked>, b: seq<Asked>, now: Time)
    ensures Deeds(a + b, now) == Deeds(a, now) + Deeds(b, now)
    decreases |a|
  {
    if a == [] {
      assert a + b == b;
    } else {
      var head := if Carried(a[0].end) then [T.Deed(now, a[0].data, a[0].energy)] else [];
      calc {
        Deeds(a + b, now);
      ==  { assert (a + b)[1..] == a[1..] + b; }
        head + Deeds(a[1..] + b, now);
      ==  { DeedsSplit(a[1..], b, now); }
        head + (Deeds(a[1..], now) + Deeds(b, now));
      ==
        Deeds(a, now) + Deeds(b, now);
      }
    }
  }

  /** What the bug has done grows by exactly the actions the world carried out, in order, each with the
      energy that was found in G0. */
  lemma {:induction false} LifeDoes(s: Sim, bug: nat, b: T.Brain, cycles: nat, chance: nat -> Chance, laws: Laws)
    requires Sound(s) && bug in s.bugs
    ensures var life := LiveExecute(s, bug, b, cycles, chance, laws);
            life.b.done == b.done + Deeds(life.asked, laws.env.now)
    decreases cycles
  {
    hide Sound, C.Act, LiveNext, ActionOf, EndsBy;
    if !b.m.running || cycles == 0 {
    } else {
      var n := LiveNext(s, bug, b, chance(cycles), laws);
      LiveNextKeeps(s, bug, b, chance(cycles), laws);
      NextInStep(s, bug, b, chance(cycles), laws);
      if n.end.Ran? {
        LifeDoes(n.s, bug, n.b, cycles - 1, chance, laws);
        DeedsSplit(n.asked, LiveExecute(n.s, bug, n.b, cycles - 1, chance, laws).asked, laws.env.now);
      }
    }
  }

  // ----- The date of the last action

  /** The date in the row of a bug is the one its CPU knows. */
  predicate SameDate(s: Sim, bug: nat, b: T.Brain) {
    bug in s.rows && s.rows[bug].lastAction == b.lastAction
  }

  lemma AttackKeepsDate(s: Sim, bug: nat, energy: Energy, damage: Energy, fault: bool, env: Env)
    requires Sound(s) && bug in s.bugs && bug in s.rows
    ensures var n := Attack(s, bug, energy, damage, fault, env).s;
            bug in n.rows && n.rows[bug].lastAction == s.rows[bug].lastAction
  {
    hide Agreement, Total, FrontOf, Kill, Alive;
    SpendSteps(s, bug, env.attack);
    var r := Spend(s, bug, env.attack);
    if r.end.Success? && FrontOf(r.s, bug) in r.s.grid && !r.s.grid[FrontOf(r.s, bug)].kind.Food? {
      HitSteps(r.s, bug, damage, env.now);
      CellOf(r.s, FrontOf(r.s, bug));
      var t := r.s.grid[FrontOf(r.s, bug)].id;
      KillKeeps(r.s, t, env.now);
    }
  }

  lemma EatKeepsDate(s: Sim, bug: nat, env: Env)
    requires Sound(s) && bug in s.bugs && bug in s.rows
    ensures var n := Eat(s, bug, env).s; bug in n.rows && n.rows[bug].lastAction == s.rows[bug].lastAction
  {
    hide Agreement, Total, FrontOf, Kill, Alive, Without;
    SpendSteps(s, bug, env.eat);
    var r := Spend(s, bug, env.eat);
    BugAlive(r.s, bug);
    if r.end.Success? && FrontOf(r.s, bug) in r.s.grid && !r.s.grid[FrontOf(r.s, bug)].kind.Bug? {
      CellOf(r.s, FrontOf(r.s, bug));
      if r.s.grid[FrontOf(r.s, bug)].kind.Egg? {
        KillKeeps(r.s, r.s.grid[FrontOf(r.s, bug)].id, env.now);
      }
    }
  }

  lemma LayKeepsDate(s: Sim, bug: nat, energy: Energy, code: Energy, env: Env)
    requires Sound(s) && bug in s.bugs && bug in s.rows
    ensures var n := LayEgg(s, bug, energy, code, env).s;
            bug in n.rows && n.rows[bug].lastAction == s.rows[bug].lastAction
  {
    hide Agreement, Total, FrontOf, Alive, Laid;
    NextIsNew(s);
  }

  lemma ActDates(s: Sim, bug: nat, a: C.Action, env: Env)
    requires Sound(s) && bug in s.bugs
    ensures var r := C.Act(s, bug, a, env);
            && bug in s.rows && bug in r.s.rows
            && r.s.rows[bug].lastAction == if Carried(r.end) then Some(env.now) else s.rows[bug].lastAction
  {
    hide Agreement, Total, Alive, Attack, Eat, LayEgg, FrontOf;
    BugAlive(s, bug);
    C.ActKeeps(s, bug, a, env);
    match a {
      case Strike(energy, damage, fault) => AttackKeepsDate(s, bug, energy, damage, fault, env);
      case Feed => EatKeepsDate(s, bug, env);
      case Lay(energy, code) => LayKeepsDate(s, bug, energy, code, env);
      case _ =>
    }
  }

  /** A bug and its row that agree on the date of the last action agree on it after the cycle, and that
      is what the laziness of the bug is measured by. */
  lemma {:induction false} LifeDates(s: Sim, bug: nat, b: T.Brain, cycles: nat, chance: nat -> Chance, laws: Laws)
    requires Sound(s) && bug in s.bugs && SameDate(s, bug, b)
    ensures var life := LiveExecute(s, bug, b, cycles, chance, laws); SameDate(life.s, bug, life.b)
    decreases cycles
  {
    hide Sound, C.Act, LiveNext, ActionOf, EndsBy, Deeds;
    if !b.m.running || cycles == 0 {
    } else {
      var n := LiveNext(s, bug, b, chance(cycles), laws);
      LiveNextKeeps(s, bug, b, chance(cycles), laws);
      NextInStep(s, bug, b, chance(cycles), laws);
      if n.asked != [] {
        var a := n.asked[0];
        ActDates(s, bug, ActionOf(a.data, a.energy, a.chance, laws.fees), laws.env);
      }
      if n.end.Ran? {
        LifeDates(n.s, bug, n.b, cycles - 1, chance, laws);
      }
    }
  }

  // ----- What the codes do, and what they tell

  /** The world does what the code of an action is named for, with the energy found in G0. */
  lemma CodesAct(s: Sim, bug: nat, data: HalfWord, energy: Word, chance: Chance, laws: Laws)
    requires Sound(s) && bug in s.bugs && bug in s.rows
    ensures var env, fees := laws.env, laws.fees;
            var r := C.Perform(s, bug, ActionOf(data, energy, chance, fees), env);
            && (data == 0x00 ==> r == Spend(s, bug, fees.nothing))
            && (data in {0x10, 0x11, 0x12, 0x13, 0x14} ==> r == Spend(s, bug, fees.myself))
            && (data == 0x20 ==> r == Spend(s, bug, fees.detect))
            && (data in {0x30, 0x31, 0x32, 0x33, 0x34} ==> r == Spend(s, bug, fees.info))
            && (data == 0x40 || data == 0x41 ==> r == MoveBug(s, bug, env))
            && (data == 0x42 ==> r == TurnBug(s, bug, Left, env))
            && (data == 0x43 ==> r == TurnBug(s, bug, Right, env))
            && (data == 0x50 ==> r == Attack(s, bug, energy, chance.damage, chance.fault, env))
            && (data == 0x60 ==> r == Eat(s, bug, env))
            && (data == 0x70 ==> r == LayEgg(s, bug, energy, chance.code, env))
  {
    hide Agreement, Total, Alive, MoveBug, TurnBug, Attack, Eat, LayEgg, Spend;
  }

  /** What the registers of a bug hold after an action it was told something by. */
  predicate Finds(was: T.Brain, n: T.Brain, g1: Word, g2: Option<Word>) {
    n.m.regs[4] == 0 && n.m.regs[5] == g1 && n.m.regs[6] == if g2.Some? then g2.value else was.m.regs[6]
  }

  /** The action failed, and the registers it would have told something in are as they were. */
  predicate FindsNothing(was: T.Brain, n: T.Brain) {
    n.m.regs[4] == 1 && n.m.regs[5] == was.m.regs[5] && n.m.regs[6] == was.m.regs[6]
  }

  /** The code of a kind and of an orientation, as programs see them. */
  function KindCode(kind: Kind): Word {
    if kind == Egg then 1 else if kind == Bug then 2 else 3
  }

  function OrientationCode(o: Orientation): Word {
    if o == North then 0 else if o == East then 1 else if o == South then 2 else 3
  }

  /** The registers after asking for one datum of an element: number, size, energy, position, or
      orientation. Food only has size and position. */
  predicate ReadsDatum(was: T.Brain, n: T.Brain, row: Row, datum: int, id: Word) {
    if row.kind.Food? && datum !in {1, 3} then FindsNothing(was, n)
    else if datum == 3 then Finds(was, n, row.position.x, Some(row.position.y))
    else
      var found := match datum
                   case 0 => id
                   case 1 => row.size
                   case 2 => row.energy
                   case _ => OrientationCode(row.orientation);
      Finds(was, n, found, None)
  }

  /** The row of what stands on a cell. */
  function RowOn(s: Sim, p: Position): Option<Row> {
    if p in s.grid && s.grid[p].id in s.rows then Some(s.rows[s.grid[p].id]) else None
  }

  /** What a bug reads in G0 to G2 after an action that was paid for: the kind of what is in front, or zero; a
      datum of its own row, or of the row in front; the size of what it ate; each as the world holds it. */
  predicate Reads(s: Sim, bug: nat, was: T.Brain, n: Life, data: HalfWord, id: Word)
    requires bug in s.rows && bug in n.s.rows && IsSize(s.size) && IsSize(n.s.size)
  {
    var front := RowOn(n.s, FrontOf(n.s, bug));
    if 0x10 <= data <= 0x14 then ReadsDatum(was, n.b, n.s.rows[bug], data - 0x10, id)
    else if data == 0x20 then Finds(was, n.b, if front.Some? then KindCode(front.value.kind) else 0, None)
    else if 0x30 <= data <= 0x34 then
      if front.None? then FindsNothing(was, n.b) else ReadsDatum(was, n.b, front.value, data - 0x30, id)
    else if data == 0x60 then
      var eaten := RowOn(s, FrontOf(s, bug));
      eaten.Some? && Finds(was, n.b, eaten.value.size, None)
    else n.b.m.regs[4] == 0 && n.b.m.regs[5] == was.m.regs[5] && n.b.m.regs[6] == was.m.regs[6]
  }

  /** A bug whose action was carried out well finds in its registers what the world holds; after an action
      error it finds the failure and nothing else. */
  lemma LifeReads(s: Sim, bug: nat, b: T.Brain, data: HalfWord, chance: Chance, laws: Laws)
    requires Sound(s) && bug in s.bugs && b.m.running && Asks(b, laws.env.now, laws.durations) == Some(data)
    requires T.Duration(laws.durations, data).Some?
    ensures var n := LiveNext(s, bug, b, chance, laws);
            && Sound(n.s) && bug in s.rows && bug in n.s.rows && |n.asked| == 1
            && (n.asked[0].end.Success? ==> Reads(s, bug, b, n, data, chance.id))
            && (n.asked[0].end.ActionError? ==> FindsNothing(b, n.b))
  {
    hide Sound, Asks, C.Act, T.BugNext, ActionOf, T.Duration, Ahead, Findings, Reads;
    LiveNextKeeps(s, bug, b, chance, laws);
    var n := LiveNext(s, bug, b, chance, laws);
    BugAlive(s, bug);
    BugAlive(n.s, bug);
    AskedEnds(b, laws, data, n.responses[0]);
    if n.asked[0].end.Success? {
      var action := ActionOf(data, b.m.regs[G0], chance, laws.fees);
      ReadsFindings(s, bug, b, n, data, action, chance, laws);
    }
  }

  /** What was eaten was in front. */
  lemma AteAhead(s: Sim, bug: nat, env: Env)
    requires Sound(s) && bug in s.bugs && C.Act(s, bug, C.Feed, env).end.Success?
    ensures FrontOf(s, bug) in s.grid
  {
    hide Agreement, Total, Eat, FrontOf;
    EatEnds(s, bug, env);
  }

  lemma ReadsFindings(s: Sim, bug: nat, b: T.Brain, n: Life, data: HalfWord, action: C.Action, chance: Chance, laws: Laws)
    requires Sound(s) && Sound(n.s) && bug in s.bugs && bug in n.s.bugs
    requires action == ActionOf(data, b.m.regs[G0], chance, laws.fees)
    requires C.Act(s, bug, action, laws.env) == Result(n.s, Success)
    requires T.Told(b, n.b, data, ResponseOf(s, Result(n.s, Success), bug, data, chance))
    ensures bug in s.rows && bug in n.s.rows && Reads(s, bug, b, n, data, chance.id)
  {
    hide Agreement, Total, Alive, FrontOf, C.Act, Attack, LayEgg, MoveBug, TurnBug, Eat;
    MemberOf(s, bug);
    MemberOf(n.s, bug);
    if FrontOf(n.s, bug) in n.s.grid {
      CellOf(n.s, FrontOf(n.s, bug));
    }
    if data == 0x60 {
      AteAhead(s, bug, laws.env);
      CellOf(s, FrontOf(s, bug));
    }
  }
}
