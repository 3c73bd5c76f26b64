/** The edit script of a mutation (simpleworld/mutation.cpp): `generate` writes it with addresses in
    the mutated code while the size changes, `mutate` replays it with one cursor in each code. */
module MutationModel {
  import opened Words

  datatype Kind = Total | Partial | Permutation | Addition | Duplication | Deletion

  datatype Mutation = Mutation(kind: Kind, address: Word)

  /** The random draws for one word: no mutation, or one of the six cases. */
  datatype Draw = Miss | Hit(choice: Choice)

  type Choice = c: nat | c < 6

  /** Where the generation is: the script, the address, the size so far. */
  datatype Generation = Generation(list: seq<Mutation>, i: Word, size: Word)

  /** A duplication at the start of the code is an addition instead. */
  function KindOf(choice: Choice, i: Word): Kind {
    match choice
    case 0 => Total
    case 1 => Partial
    case 2 => Permutation
    case 3 => Addition
    case 4 => if i == 0 then Addition else Duplication
    case _ => Deletion
  }

  function Draws(g: Generation, d: Draw): Generation {
    match d
    case Miss => g.(i := Plus(g.i, 4))
    case Hit(choice) =>
      var kind := KindOf(choice, g.i);
      var list := g.list + [Mutation(kind, g.i)];
      match kind
      case Deletion => Generation(list, g.i, Plus(g.size, -4))
      case Addition => Generation(list, Plus(g.i, 4), Plus(g.size, 4))
      case Duplication => Generation(list, Plus(g.i, 4), Plus(g.size, 4))
      case _ => Generation(list, Plus(g.i, 4), g.size)
  }

  /** The generation ends when the address reaches the size; draws after that are not made. */
  function GenerateFrom(g: Generation, draws: seq<Draw>): Generation
    decreases |draws|
  {
    if g.i >= g.size || draws == [] then g else GenerateFrom(Draws(g, draws[0]), draws[1..])
  }

  function Generate(size: Word, draws: seq<Draw>): Generation {
    GenerateFrom(Generation([], 0, size), draws)
  }

  /** `generate`, with the random numbers it draws; unfinished when they run out. */
  method GenerateList(start: Word, draws: seq<Draw>) returns (list: seq<Mutation>, size: Word, finished: bool)
    ensures list == Generate(start, draws).list && size == Generate(start, draws).size
    ensures finished <==> Generate(start, draws).i >= size
  {
    list, size := [], start;
    var i: Word, k := 0, 0;
    while i < size && k < |draws|
      invariant 0 <= k <= |draws|
      invariant Generate(start, draws) == GenerateFrom(Generation(list, i, size), draws[k..])
      decreases |draws| - k
    {
      assert draws[k..][0] == draws[k] && draws[k..][1..] == draws[k + 1..];
      match draws[k] {
        case Miss =>
          i := Plus(i, 4);
        case Hit(choice) =>
          match choice {
            case 0 => list := list + [Mutation(Total, i)]; i := Plus(i, 4);
            case 1 => list := list + [Mutation(Partial, i)]; i := Plus(i, 4);
            case 2 => list := list + [Mutation(Permutation, i)]; i := Plus(i, 4);
            case 3 =>
              list := list + [Mutation(Addition, i)];
              i := Plus(i, 4);
              size := Plus(size, 4);
            case 4 =>
              list := list + [Mutation(if i == 0 then Addition else Duplication, i)];
              i := Plus(i, 4);
              size := Plus(size, 4);
            case _ =>
              list := list + [Mutation(Deletion, i)];
              size := Plus(size, -4);
          }
      }
      k := k + 1;
    }
    finished := i >= size;
  }

  // ----- Replaying

  /** One block copied: `count` bytes from the original code at `source` to the mutated at `target`. */
  datatype Copy = Copy(source: Word, target: Word, count: Word)

  /** A word read or written at an offset of the original or the mutated code. */
  datatype Side = Original | Mutated

  datatype Touch = Touch(side: Side, offset: int)

  /** The word in front of the mutated code. */
  const BEFORE_START: Touch := Touch(Mutated, -4)

  /** The two cursors, the copies made, the words edits have touched, and what the cursors have
      passed: bytes kept, and words replaced, added and deleted. */
  datatype Cursors = Cursors(original: Word, mutated: Word, copies: seq<Copy>, touches: seq<Touch>,
                             kept: nat, replaced: nat, added: nat, deleted: nat)

  const AT_START := Cursors(0, 0, [], [], 0, 0, 0, 0)

  predicate Inserts(kind: Kind) {
    kind.Addition? || kind.Duplication?
  }

  /** The words an edit reads and writes, all of them at the length of the chunk before it: what it
      replaces or deletes is read, what it makes is written, and a duplication reads the word before. */
  function TouchesOf(kind: Kind, chunk: Word, changed: bool): seq<Touch> {
    match kind
    case Addition => [Touch(Mutated, chunk)]
    case Duplication => [Touch(Mutated, chunk as int - 4), Touch(Mutated, chunk)]
    case Deletion => [Touch(Original, chunk)]
    case _ => [Touch(Original, chunk)] + if changed then [Touch(Mutated, chunk)] else []
  }

  /** One edit. A replacement that draws the word already there moves neither cursor, so that the
      word is left to the next copy. */
  function Apply(c: Cursors, m: Mutation, changed: bool): Cursors {
    var chunk := Minus(m.address, c.mutated);
    var copied := if chunk > 0 then c.copies + [Copy(c.original, c.mutated, chunk)] else c.copies;
    var n := c.(copies := copied, touches := c.touches + TouchesOf(m.kind, chunk, changed));
    match m.kind
    case Addition => Pass(n, chunk, 0, 4).(added := c.added + 1)
    case Duplication => Pass(n, chunk, 0, 4).(added := c.added + 1)
    case Deletion => Pass(n, chunk, 4, 0).(deleted := c.deleted + 1)
    case _ => if changed then Pass(n, chunk, 4, 4).(replaced := c.replaced + 1) else n
  }

  /** Both cursors go past the copied chunk and past what the edit takes and makes. */
  function Pass(c: Cursors, chunk: Word, taken: int, made: int): Cursors {
    c.(original := Plus(c.original, chunk + taken), mutated := Plus(c.mutated, chunk + made), kept := c.kept + chunk)
  }

  function Replay(c: Cursors, list: seq<Mutation>, changed: seq<bool>): Cursors
    requires |changed| == |list|
    decreases |list|
  {
    if list == [] then c else Replay(Apply(c, list[0], changed[0]), list[1..], changed[1..])
  }

  /** The copy of the rest of the code, if there is any. */
  function CopyRest(c: Cursors, size: Word): seq<Copy> {
    if c.mutated != size then [Copy(c.original, c.mutated, Minus(size, c.mutated))] else []
  }

  /** `mutate`: the copies it makes, the words it touches, and where its cursors end. */
  method Mutate(list: seq<Mutation>, changed: seq<bool>, size: Word)
    returns (copies: seq<Copy>, touches: seq<Touch>, originalI: Word, mutatedI: Word)
    requires |changed| == |list|
    ensures var c := Replay(AT_START, list, changed);
            && originalI == c.original && mutatedI == c.mutated
            && copies == c.copies + CopyRest(c, size) && touches == c.touches
  {
    hide Plus, Minus;
    originalI, mutatedI, copies, touches := 0, 0, [], [];
    ghost var c := AT_START;
    var k := 0;
    while k < |list|
      invariant 0 <= k <= |list|
      invariant originalI == c.original && mutatedI == c.mutated && copies == c.copies && touches == c.touches
      invariant Replay(AT_START, list, changed) == Replay(c, list[k..], changed[k..])
    {
      assert list[k..][1..] == list[k + 1..] && changed[k..][1..] == changed[k + 1..];
      c := Apply(c, list[k], changed[k]);
      var chunk := Minus(list[k].address, mutatedI);
      if chunk > 0 {
        copies := copies + [Copy(originalI, mutatedI, chunk)];
      }
      match list[k].kind {
        case Total =>
          touches := touches + [Touch(Original, chunk)];
          if changed[k] {
            touches := touches + [Touch(Mutated, chunk)];
            originalI, mutatedI := Plus(originalI, chunk as int + 4), Plus(mutatedI, chunk as int + 4);
          }
        case Partial =>
          touches := touches + [Touch(Original, chunk)];
          if changed[k] {
            touches := touches + [Touch(Mutated, chunk)];
            originalI, mutatedI := Plus(originalI, chunk as int + 4), Plus(mutatedI, chunk as int + 4);
          }
        case Permutation =>
          touches := touches + [Touch(Original, chunk)];
          if changed[k] {
            touches := touches + [Touch(Mutated, chunk)];
            originalI, mutatedI := Plus(originalI, chunk as int + 4), Plus(mutatedI, chunk as int + 4);
          }
        case Addition =>
          touches := touches + [Touch(Mutated, chunk)];
          originalI, mutatedI := Plus(originalI, chunk as int + 0), Plus(mutatedI, chunk as int + 4);
        case Duplication =>
          touches := touches + [Touch(Mutated, chunk as int - 4), Touch(Mutated, chunk)];
          originalI, mutatedI := Plus(originalI, chunk as int + 0), Plus(mutatedI, chunk as int + 4);
        case Deletion =>
          touches := touches + [Touch(Original, chunk)];
          originalI, mutatedI := Plus(originalI, chunk as int + 4), Plus(mutatedI, chunk as int + 0);
      }
      k := k + 1;
    }
    if mutatedI != size {
      copies := copies + [Copy(originalI, mutatedI, Minus(size, mutatedI))];
    }
  }

  // ----- One draw and one edit, in numbers

  /** What is drawn for a word: a miss goes on to the next; the six cases record a random word, a random
      part, a permutation, an addition, a duplication, which at the start is an addition, and a deletion;
      the size grows or shrinks by a word with the last three, and a deletion stays where it is. */
  lemma DrawsMean(g: Generation, choice: Choice)
    ensures Draws(g, Miss) == Generation(g.list, (g.i as int + 4) % 0x1_0000_0000, g.size)
    ensures var n := Draws(g, Hit(choice));
            var kind := if choice == 0 then Total else if choice == 1 then Partial else if choice == 2 then Permutation
                        else if choice == 5 then Deletion else if choice == 4 && g.i > 0 then Duplication else Addition;
            && n.list == g.list + [Mutation(kind, g.i)]
            && n.i == (g.i as int + if choice == 5 then 0 else 4) % 0x1_0000_0000
            && n.size == (g.size as int + if choice == 5 then -4 else if choice >= 3 then 4 else 0) % 0x1_0000_0000
  {
  }

  /** What one edit does with the cursors at or before its address: the chunk between is copied; a changed
      replacement goes past a word of both codes, an insertion past one of the mutated code, a deletion past
      one of the original, and an unchanged replacement nowhere. */
  lemma EditMeans(c: Cursors, m: Mutation, changed: bool)
    requires c.mutated <= m.address
    ensures var n, chunk := Apply(c, m, changed), m.address - c.mutated;
            var here, there := Touch(Original, chunk), Touch(Mutated, chunk);
            var inserts := m.kind == Addition || m.kind == Duplication;
            && n.copies == (if chunk > 0 then c.copies + [Copy(c.original, c.mutated, chunk)] else c.copies)
            && n.touches == c.touches +
               (if m.kind == Addition then [there]
                else if m.kind == Duplication then [Touch(Mutated, chunk - 4), there]
                else if m.kind == Deletion || !changed then [here] else [here, there])
            && (if !inserts && m.kind != Deletion && !changed then n.original == c.original && n.mutated == c.mutated
                else
                  && n.original == (c.original as int + chunk + if inserts then 0 else 4) % 0x1_0000_0000
                  && n.mutated == (m.address as int + if m.kind == Deletion then 0 else 4) % 0x1_0000_0000)
  {
    hide Minus;
    ExactMinus(m.address, c.mutated);
  }

  /** What is left of the mutated code is copied in the end. */
  lemma RestMeans(c: Cursors, size: Word)
    requires c.mutated <= size
    ensures CopyRest(c, size) == if c.mutated == size then [] else [Copy(c.original, c.mutated, size - c.mutated)]
  {
    hide Minus;
    ExactMinus(size, c.mutated);
  }

  // ----- The cursors meet the ends

  predicate InBounds(copies: seq<Copy>, originalSize: Word, mutatedSize: Word) {
    forall k :: 0 <= k < |copies| ==>
      && copies[k].source + copies[k].count <= originalSize
      && copies[k].target + copies[k].count <= mutatedSize
  }

  predicate Held(t: Touch, originalSize: Word, mutatedSize: Word) {
    0 <= t.offset && t.offset + 4 <= if t.side.Original? then originalSize else mutatedSize
  }

  /** Every word touched is inside its code, but for reads of the word in front of the mutated one. */
  predicate HeldBut(touches: seq<Touch>, originalSize: Word, mutatedSize: Word) {
    forall t :: t in touches ==> t == BEFORE_START || Held(t, originalSize, mutatedSize)
  }

  /** The replay reads and writes nothing outside either code. */
  predicate StaysInside(c: Cursors, originalSize: Word, mutatedSize: Word) {
    && InBounds(c.copies + CopyRest(c, mutatedSize), originalSize, mutatedSize)
    && forall t :: t in c.touches ==> Held(t, originalSize, mutatedSize)
  }

  /** Where an edit leaves the cursor of the mutated code; an edit that moves nothing leaves it
      behind every later address. */
  function LeavesAt(m: Mutation, changed: bool): int {
    if m.kind.Deletion? then m.address
    else if Inserts(m.kind) || changed then m.address + 4
    else -1
  }

  /** No duplication comes right where the edit before it left the cursor: after an addition, a
      duplication or a changed replacement of the word before, or a deletion at its address. */
  predicate Apart(list: seq<Mutation>, changed: seq<bool>)
    requires |changed| == |list|
  {
    forall k :: 1 <= k < |list| && list[k].kind.Duplication? ==> list[k].address != LeavesAt(list[k - 1], changed[k - 1])
  }

  /** Every byte the cursors have passed is accounted for: in the mutated code it was kept,
      replaced or added, in the original it was kept, replaced or deleted. */
  predicate Accounts(c: Cursors) {
    && c.mutated == c.kept + 4 * (c.replaced + c.added)
    && c.original == c.kept + 4 * (c.replaced + c.deleted)
  }

  /** The copies of the replay of a script are inside both codes, and it ends with the same rest in both. */
  predicate Meets(c: Cursors, originalSize: Word, mutatedSize: Word) {
    && InBounds(c.copies + CopyRest(c, mutatedSize), originalSize, mutatedSize)
    && c.original <= originalSize && c.mutated <= mutatedSize
    && originalSize - c.original == mutatedSize - c.mutated
    && Accounts(c)
  }

  /** Enough room in 32 bits for whatever the draws add. */
  predicate Fits(size: int, draws: seq<Draw>) {
    size + 4 * |draws| < WORD_LIMIT
  }

  lemma Exact(w: Word, d: int)
    requires 0 <= w + d < WORD_LIMIT
    ensures Plus(w, d) == w + d
  {
  }

  lemma ExactMinus(a: Word, b: Word)
    requires b <= a
    ensures Minus(a, b) == a - b
  {
  }

  /** An edit at an address the cursors have not passed: the copy before it is inside both codes. */
  lemma ApplyInside(c: Cursors, m: Mutation, changed: bool, at: Word, originalSize: Word, mutatedSize: Word)
    requires c.mutated <= m.address && c.original + (m.address - c.mutated) == at
    requires at + (if Inserts(m.kind) then 0 else 4) <= originalSize
    requires m.address + (if m.kind.Deletion? then 0 else 4) <= mutatedSize
    requires InBounds(c.copies, originalSize, mutatedSize) && Accounts(c)
    ensures var n := Apply(c, m, changed);
            && InBounds(n.copies, originalSize, mutatedSize) && Accounts(n)
            && (if Inserts(m.kind) then n.mutated == m.address + 4 && n.original == at
                else if m.kind.Deletion? then n.mutated == m.address && n.original == at + 4
                else if changed then n.mutated == m.address + 4 && n.original == at + 4
                else n.mutated == c.mutated && n.original == c.original)
  {
    hide Plus, Minus;
    var chunk := m.address - c.mutated;
    ExactMinus(m.address, c.mutated);
    Exact(c.original, chunk);
    Exact(c.mutated, chunk);
    if !m.kind.Deletion? {
      Exact(c.mutated, chunk + 4);
    }
    if !Inserts(m.kind) {
      Exact(c.original, chunk + 4);
    }
  }

  /** The sizes a generation can still end with are at or past its address. */
  lemma {:induction false} GenerationEnds(g: Generation, draws: seq<Draw>)
    requires g.i <= g.size && g.i % 4 == 0 && g.size % 4 == 0 && Fits(g.size, draws)
    requires GenerateFrom(g, draws).i >= GenerateFrom(g, draws).size
    ensures var e := GenerateFrom(g, draws);
            e.i == e.size && g.i <= e.size && |g.list| <= |e.list| && e.list[..|g.list|] == g.list
    decreases |draws|
  {
    hide Plus;
    if g.i >= g.size || draws == [] {
    } else {
      DrawsInside(g, draws[0]);
      GenerationEnds(Draws(g, draws[0]), draws[1..]);
    }
  }

  /** One draw keeps the address and the size on words, and the distance between them moves by
      what the draw takes of the original code. */
  lemma DrawsInside(g: Generation, d: Draw)
    requires g.i < g.size && g.i % 4 == 0 && g.size % 4 == 0 && g.size + 4 < WORD_LIMIT
    ensures var n := Draws(g, d);
            && n.i <= n.size <= g.size + 4 && n.i % 4 == 0 && n.size % 4 == 0 && g.i <= n.i
            && (d == Miss ==> n == g.(i := g.i + 4))
            && (d != Miss ==> n.list == g.list + [Mutation(KindOf(d.choice, g.i), g.i)])
            && n.size - n.i == g.size - g.i - (if d != Miss && Inserts(KindOf(d.choice, g.i)) then 0 else 4)
            && (d != Miss ==> n.i == g.i + if KindOf(d.choice, g.i).Deletion? then 0 else 4)
  {
    hide Plus;
    Exact(g.i, 4);
    Exact(g.size, 4);
    Exact(g.size, -4);
  }

  /** From any point of the generation on: with the cursors behind it by the same distance in both
      codes, and the same rest ahead in both codes, the replay meets the ends. */
  lemma {:induction false} ReplayMeets(g: Generation, draws: seq<Draw>, at: Word, c: Cursors,
                                       changed: seq<bool>, start: Word)
    requires g.i <= g.size && g.i % 4 == 0 && g.size % 4 == 0 && Fits(g.size, draws)
    requires GenerateFrom(g, draws).i >= GenerateFrom(g, draws).size
    requires |g.list| + |changed| == |GenerateFrom(g, draws).list|
    requires c.mutated <= g.i && c.original + (g.i - c.mutated) == at <= start && start - at == g.size - g.i
    requires InBounds(c.copies, start, GenerateFrom(g, draws).size) && Accounts(c)
    ensures Meets(Replay(c, GenerateFrom(g, draws).list[|g.list|..], changed), start, GenerateFrom(g, draws).size)
    decreases |draws|
  {
    hide Plus, Minus, InBounds, Accounts, Apply;
    var e := GenerateFrom(g, draws);
    if g.i >= g.size || draws == [] {
      RestMeets(c, start, e.size);
    } else {
      DrawsInside(g, draws[0]);
      var n := Draws(g, draws[0]);
      GenerationEnds(n, draws[1..]);
      match draws[0] {
        case Miss =>
          ReplayMeets(n, draws[1..], at + 4, c, changed, start);
        case Hit(choice) =>
          var m := Mutation(KindOf(choice, g.i), g.i);
          var list := e.list[|g.list|..];
          assert e.list[..|n.list|][|g.list|] == m;
          assert list[0] == m && list[1..] == e.list[|n.list|..];
          ApplyInside(c, m, changed[0], at, start, e.size);
          ReplayMeets(n, draws[1..], if Inserts(m.kind) then at else at + 4, Apply(c, m, changed[0]),
                      changed[1..], start);
      }
    }
  }

  // ----- The words an edit touches

  /** `Apart`, one edit at a time: `left` is where the edit before left the cursor. */
  predicate ApartFrom(left: int, list: seq<Mutation>, changed: seq<bool>)
    requires |changed| == |list|
    decreases |list|
  {
    list == []
    || (&& (list[0].kind.Duplication? ==> list[0].address != left)
        && ApartFrom(LeavesAt(list[0], changed[0]), list[1..], changed[1..]))
  }

  lemma {:induction false} ApartMeans(left: int, list: seq<Mutation>, changed: seq<bool>)
    requires |changed| == |list|
    ensures ApartFrom(left, list, changed) <==>
            Apart(list, changed) && (list != [] && list[0].kind.Duplication? ==> list[0].address != left)
    decreases |list|
  {
    hide LeavesAt;
    if list == [] {
    } else {
      var rest, others := list[1..], changed[1..];
      ApartMeans(LeavesAt(list[0], changed[0]), rest, others);
      assert forall k :: 1 <= k < |rest| ==>
               rest[k] == list[k + 1] && rest[k - 1] == list[k] && others[k - 1] == changed[k];
      if Apart(list, changed) {
        assert Apart(rest, others);
        assert rest != [] ==> rest[0] == list[1];
      }
      if Apart(rest, others)
         && (rest != [] && rest[0].kind.Duplication? ==> rest[0].address != LeavesAt(list[0], changed[0])) {
        forall k | 1 <= k < |list| && list[k].kind.Duplication?
          ensures list[k].address != LeavesAt(list[k - 1], changed[k - 1])
        {
          if k > 1 {
            assert rest[k - 1] == list[k];
          }
        }
      }
    }
  }

  /** One edit touches words inside both codes, but for a duplication at the cursor. */
  lemma TouchesInside(kind: Kind, chunk: Word, changed: bool, originalSize: Word, mutatedSize: Word)
    requires chunk % 4 == 0
    requires Inserts(kind) || chunk + 4 <= originalSize
    requires kind.Deletion? || chunk + 4 <= mutatedSize
    ensures HeldBut(TouchesOf(kind, chunk, changed), originalSize, mutatedSize)
    ensures BEFORE_START in TouchesOf(kind, chunk, changed) <==> kind.Duplication? && chunk == 0
  {
  }

  lemma TouchesGrow(c: Cursors, m: Mutation, changed: bool)
    ensures Apply(c, m, changed).touches == c.touches + TouchesOf(m.kind, Minus(m.address, c.mutated), changed)
  {
    hide Plus, Minus, TouchesOf;
  }

  /** Where the cursor of the mutated code is, for a generation at `i`: on words, never ahead, and at
      `i` exactly when the edit before left it there. */
  predicate Follows(c: Cursors, i: Word, left: int) {
    && c.mutated <= i && c.mutated % 4 == 0 && left <= i
    && (i > 0 ==> (c.mutated == i <==> left == i))
  }

  /** The next edit is made at `i` with the cursors behind it: what it touches, and where it leaves
      the cursor. */
  lemma ApplyTouches(c: Cursors, m: Mutation, changed: bool, at: Word, left: int, originalSize: Word, mutatedSize: Word)
    requires Follows(c, m.address, left) && m.address % 4 == 0 && (m.kind.Duplication? ==> m.address > 0)
    requires c.original + (m.address - c.mutated) == at
    requires at + (if Inserts(m.kind) then 0 else 4) <= originalSize
    requires m.address + (if m.kind.Deletion? then 0 else 4) <= mutatedSize
    requires HeldBut(c.touches, originalSize, mutatedSize)
    requires InBounds(c.copies, originalSize, mutatedSize) && Accounts(c)
    ensures var n := Apply(c, m, changed);
            && HeldBut(n.touches, originalSize, mutatedSize)
            && (BEFORE_START in n.touches <==>
                  BEFORE_START in c.touches || (m.kind.Duplication? && m.address == left))
            && Follows(n, if m.kind.Deletion? then m.address else m.address + 4, LeavesAt(m, changed))
  {
    hide Apply, Minus, InBounds, Accounts, Held, TouchesOf;
    var chunk := m.address - c.mutated;
    ExactMinus(m.address, c.mutated);
    TouchesGrow(c, m, changed);
    TouchesInside(m.kind, chunk, changed, originalSize, mutatedSize);
    ApplyInside(c, m, changed, at, originalSize, mutatedSize);
  }

  /** From any point of the generation on, the replay touches the word in front of the mutated code
      exactly when a duplication comes where the cursor was left. */
  lemma {:induction false} ReplayTouches(g: Generation, draws: seq<Draw>, at: Word, c: Cursors,
                                         changed: seq<bool>, start: Word, left: int)
    requires g.i <= g.size && g.i % 4 == 0 && g.size % 4 == 0 && Fits(g.size, draws)
    requires GenerateFrom(g, draws).i >= GenerateFrom(g, draws).size
    requires |g.list| + |changed| == |GenerateFrom(g, draws).list|
    requires Follows(c, g.i, left) && c.original + (g.i - c.mutated) == at <= start && start - at == g.size - g.i
    requires InBounds(c.copies, start, GenerateFrom(g, draws).size) && Accounts(c)
    requires HeldBut(c.touches, start, GenerateFrom(g, draws).size)
    ensures var e := GenerateFrom(g, draws);
            var n := Replay(c, e.list[|g.list|..], changed);
            && HeldBut(n.touches, start, e.size)
            && (BEFORE_START in n.touches <==>
                  BEFORE_START in c.touches || !ApartFrom(left, e.list[|g.list|..], changed))
    decreases |draws|
  {
    hide Plus, Minus, InBounds, Accounts, Apply, HeldBut, LeavesAt;
    var e := GenerateFrom(g, draws);
    if g.i >= g.size || draws == [] {
    } else {
      DrawsInside(g, draws[0]);
      var n := Draws(g, draws[0]);
      GenerationEnds(n, draws[1..]);
      match draws[0] {
        case Miss =>
          ReplayTouches(n, draws[1..], at + 4, c, changed, start, left);
        case Hit(choice) =>
          var m := Mutation(KindOf(choice, g.i), g.i);
          var list := e.list[|g.list|..];
          assert e.list[..|n.list|][|g.list|] == m;
          assert list[0] == m && list[1..] == e.list[|n.list|..];
          ApplyInside(c, m, changed[0], at, start, e.size);
          ApplyTouches(c, m, changed[0], at, left, start, e.size);
          ReplayTouches(n, draws[1..], if Inserts(m.kind) then at else at + 4, Apply(c, m, changed[0]),
                        changed[1..], start, LeavesAt(m, changed[0]));
      }
    }
  }

  lemma RestMeets(c: Cursors, start: Word, size: Word)
    requires c.mutated <= size && c.original <= start && start - c.original == size - c.mutated
    requires InBounds(c.copies, start, size) && Accounts(c)
    ensures Meets(c, start, size)
  {
    hide Minus;
    ExactMinus(size, c.mutated);
  }

  /** Whatever is drawn and whichever replacements turn out to change their word, when the
      generation finishes: the size changes by the words added and deleted, the copies of the replay
      are inside both codes and the last takes the rest of both, and every word an edit touches is
      inside its code, but for the word in front of the mutated code, which is read exactly when a
      duplication comes where the edit before it left the cursor. */
  predicate Good(start: Word, draws: seq<Draw>, changed: seq<bool>) {
    var e := Generate(start, draws);
    e.i >= e.size && |changed| == |e.list| && Fits(start, draws) ==>
      var c := Replay(AT_START, e.list, changed);
      && Meets(c, start, e.size) && e.size == start + 4 * (c.added - c.deleted)
      && HeldBut(c.touches, start, e.size)
      && (BEFORE_START in c.touches <==> !Apart(e.list, changed))
  }

  lemma WordsAreGood(start: Word, draws: seq<Draw>, changed: seq<bool>)
    requires start % 4 == 0
    ensures Good(start, draws, changed)
  {
    hide Apply, Plus, Minus, GenerateFrom, Replay, Meets, InBounds, Accounts, Fits, Apart, ApartFrom;
    var e := Generate(start, draws);
    if e.i >= e.size && |changed| == |e.list| && Fits(start, draws) {
      StartAccounts();
      NothingCopied(start, e.size);
      ReplayMeets(Generation([], 0, start), draws, 0, AT_START, changed, start);
      ReplayTouches(Generation([], 0, start), draws, 0, AT_START, changed, start, -1);
      ApartMeans(-1, e.list, changed);
      assert e.list[0..] == e.list;
      MeetsSizes(Replay(AT_START, e.list, changed), start, e.size);
    }
  }

  /** For a code of whole words, the replay reads and writes nothing outside either code if and only
      if no duplication of the script comes where the edit before it left the cursor. */
  lemma ReplayStaysInside(start: Word, draws: seq<Draw>, changed: seq<bool>)
    requires start % 4 == 0 && Fits(start, draws)
    requires Generate(start, draws).i >= Generate(start, draws).size && |changed| == |Generate(start, draws).list|
    ensures var e := Generate(start, draws);
            StaysInside(Replay(AT_START, e.list, changed), start, e.size) <==> Apart(e.list, changed)
  {
    hide GenerateFrom, Replay, Fits, Apart, InBounds, Accounts;
    WordsAreGood(start, draws, changed);
    assert !Held(BEFORE_START, start, Generate(start, draws).size);
  }

  const ADD_AND_REPEAT: seq<Mutation> := [Mutation(Addition, 0), Mutation(Duplication, 4)]

  lemma AddAndRepeatDrawn()
    ensures Generate(4, [Hit(3), Hit(4), Miss]) == Generation(ADD_AND_REPEAT, 12, 12)
  {
    hide GenerateFrom;
    var g0 := Generation([], 0, 4);
    var g1 := Generation([Mutation(Addition, 0)], 4, 8);
    var g2 := Generation(ADD_AND_REPEAT, 8, 12);
    assert Draws(g0, Hit(3)) == g1;
    assert Draws(g1, Hit(4)) == g2;
    assert [Hit(3), Hit(4), Miss][1..] == [Hit(4), Miss] && [Hit(4), Miss][1..] == [Miss] && [Miss][1..] == [];
    GenerateStep(g0, [Hit(3), Hit(4), Miss]);
    GenerateStep(g1, [Hit(4), Miss]);
    GenerateStep(g2, [Miss]);
    GenerateEnd(Draws(g2, Miss));
  }

  lemma GenerateStep(g: Generation, draws: seq<Draw>)
    requires g.i < g.size && draws != []
    ensures GenerateFrom(g, draws) == GenerateFrom(Draws(g, draws[0]), draws[1..])
  {
  }

  lemma GenerateEnd(g: Generation)
    ensures GenerateFrom(g, []) == g
  {
  }

  lemma AddAndRepeatReplayed()
    ensures BEFORE_START in Replay(AT_START, ADD_AND_REPEAT, [true, true]).touches
  {
    hide Replay;
    var c := Apply(AT_START, Mutation(Addition, 0), true);
    assert c.mutated == 4;
    TouchesGrow(c, Mutation(Duplication, 4), true);
    TouchesInside(Duplication, 0, true, 4, 12);
    ReplayTwo(AT_START, Mutation(Addition, 0), Mutation(Duplication, 4));
  }

  lemma ReplayTwo(c: Cursors, m: Mutation, n: Mutation)
    ensures Replay(c, [m, n], [true, true]) == Apply(Apply(c, m, true), n, true)
  {
    hide Apply;
    assert [m, n][1..] == [n] && [n][1..] == [] && [true, true][1..] == [true] && [true][1..] == [];
    var d := Apply(c, m, true);
    assert Replay(d, [n], [true]) == Replay(Apply(d, n, true), [], []);
  }

  /** A code of one word, an addition in front and a duplication right behind it: the word in front
      of the mutated code is read. */
  lemma DuplicationReadsBefore()
    ensures var e := Generate(4, [Hit(3), Hit(4), Miss]);
            && e == Generation(ADD_AND_REPEAT, 12, 12)
            && BEFORE_START in Replay(AT_START, e.list, [true, true]).touches
            && !StaysInside(Replay(AT_START, e.list, [true, true]), 4, 12)
  {
    hide GenerateFrom, Replay, InBounds;
    AddAndRepeatDrawn();
    AddAndRepeatReplayed();
    assert !Held(BEFORE_START, 4, 12);
  }

  lemma StartAccounts()
    ensures Accounts(AT_START)
  {
  }

  lemma NothingCopied(start: Word, size: Word)
    ensures InBounds([], start, size)
  {
  }

  lemma MeetsSizes(c: Cursors, start: Word, size: Word)
    requires Meets(c, start, size)
    ensures size == start + 4 * (c.added - c.deleted)
  {
    hide InBounds, CopyRest;
  }

  /** Draws that leave `n` words alone and then replace the next. */
  function ReplaceAfter(n: nat): seq<Draw> {
    if n == 0 then [Hit(0)] else [Miss] + ReplaceAfter(n - 1)
  }

  lemma {:induction false} ReplaceAfterRuns(n: nat, i: Word, size: Word)
    requires i + 4 * n < size < i + 4 * n + 4 < WORD_LIMIT
    ensures GenerateFrom(Generation([], i, size), ReplaceAfter(n)) ==
            Generation([Mutation(Total, i + 4 * n)], i + 4 * n + 4, size)
    ensures |ReplaceAfter(n)| == n + 1
    decreases n
  {
    hide Plus;
    var ds := ReplaceAfter(n);
    Exact(i, 4);
    if n == 0 {
      var g := Draws(Generation([], i, size), Hit(0));
      assert GenerateFrom(g, ds[1..]) == g;
    } else {
      assert ds[1..] == ReplaceAfter(n - 1);
      ReplaceAfterRuns(n - 1, i + 4, size);
    }
  }

  lemma PastTheEnd(size: Word, cursor: Word)
    requires cursor > size
    ensures cursor + Minus(size, cursor) > size
  {
  }

  /** A code that does not end on a word is overrun by replacing its last, partial word. */
  lemma PartialWordIsOverrun(start: Word)
    requires start % 4 != 0 && start + 4 * (start / 4 + 1) < WORD_LIMIT
    ensures !Good(start, ReplaceAfter(start / 4), [true])
    ensures var e := Generate(start, ReplaceAfter(start / 4));
            && e.i >= e.size && |e.list| == 1
            && !StaysInside(Replay(AT_START, e.list, [true]), start, e.size)
  {
    hide Accounts, Plus, Minus, GenerateFrom, HeldBut, Apart;
    var n := start / 4;
    ReplaceAfterRuns(n, 0, start);
    var m := Mutation(Total, 4 * n);
    var c := Apply(AT_START, m, true);
    ExactMinus(4 * n, 0);
    Exact(0, 4 * n + 4);
    assert [m][1..] == [] && [true][1..] == [];
    assert Replay(AT_START, [m], [true]) == c;
    PastTheEnd(start, 4 * n + 4);
    var copies := c.copies + CopyRest(c, start);
    assert copies[|copies| - 1] == Copy(4 * n + 4, 4 * n + 4, Minus(start, 4 * n + 4));
  }

  /** Exactly the sizes that are whole words are good for all draws. */
  lemma GoodSizes(start: Word)
    requires start + 4 * (start / 4 + 1) < WORD_LIMIT
    ensures start % 4 == 0 <==> forall draws, changed :: Good(start, draws, changed)
  {
    hide Good;
    if start % 4 == 0 {
      forall draws, changed
        ensures Good(start, draws, changed)
      {
        WordsAreGood(start, draws, changed);
      }
    } else {
      PartialWordIsOverrun(start);
    }
  }
}
