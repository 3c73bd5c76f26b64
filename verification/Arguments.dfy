/** What a command line means to `getopt` in its permuting mode: a single left-to-right reading of
    the arguments, independent of how the scanner gets there (getopt/getopt.c). */
module Arguments {
  import opened Options

  datatype HasArg = NoArgument | RequiredArgument | OptionalArgument

  /** `flag` 0 is the null pointer; other numbers tell distinct variables apart. */
  datatype LongOption = LongOption(name: string, hasArg: HasArg, flag: nat, val: int)

  /** `long` is the null pointer for plain `getopt`. */
  datatype Config = Config(short: string, long: Option<seq<LongOption>>)

  /** What one call reports: its result, `optarg`, and what it stored in `optopt` and `*longind`. */
  datatype Event = Event(result: int, arg: Option<string>, opt: Option<int>, index: Option<nat>)

  /** The option string asks for the default, permuting order, and for no `-W` long options: it does not
      begin with a sign and `W` is not followed by a semicolon. POSIXLY_CORRECT is not set. */
  predicate Permutes(short: string) {
    && (short != "" ==> short[0] != '+' && short[0] != '-')
    && (forall i :: 0 <= i < |short| - 1 && short[i] == 'W' ==> short[i + 1] != ';')
  }

  const QUESTION: int := '?' as int
  const COLON: int := ':' as int

  /** A character as the number a call returns: arguments are bytes, and a plain `char` is signed, as on
      x86, so that the last byte is -1. */
  function CharValue(c: char): int {
    if c as int < 128 then c as int else c as int - 256
  }

  /** The result of an option whose required argument is missing. */
  function MissingResult(cfg: Config): int {
    if cfg.short != "" && cfg.short[0] == ':' then COLON else QUESTION
  }

  /** An argument that is not an option: it does not start with a dash, or is just a dash. */
  predicate IsOperand(s: string) {
    s == "" || s[0] != '-' || |s| == 1
  }

  predicate IsTerminator(s: string) {
    s == "--"
  }

  predicate IsLong(cfg: Config, s: string)
    requires !IsOperand(s)
  {
    cfg.long.Some? && s[1] == '-'
  }

  /** The characters of an option after its punctuation. */
  function Body(cfg: Config, s: string): (b: string)
    requires !IsOperand(s) && !IsTerminator(s)
    ensures b != ""
  {
    if IsLong(cfg, s) then s[2..] else s[1..]
  }

  // ----- Short options

  datatype ShortKind = Unknown | Plain | Required | Optional

  /** The first place of `c` at or after `i`, or the length of the string. */
  function Find(s: string, c: char, i: nat): (k: nat)
    requires i <= |s|
    ensures i <= k <= |s|
    ensures k < |s| ==> s[k] == c
    ensures forall j :: i <= j < k ==> s[j] != c
    decreases |s| - i
  {
    if i == |s| || s[i] == c then i else Find(s, c, i + 1)
  }

  function KindOf(short: string, c: char): ShortKind {
    var k := Find(short, c, 0);
    if k == |short| || c == ':' then Unknown
    else if k + 1 < |short| && short[k + 1] == ':' then
      if k + 2 < |short| && short[k + 2] == ':' then Optional else Required
    else Plain
  }

  // ----- Long options

  datatype LongMatch = NotFound | Ambiguous | Match(index: nat)

  predicate Abbreviates(key: string, o: LongOption) {
    key <= o.name
  }

  /** Options that an ambiguous abbreviation may stand for without harm. */
  predicate Agree(a: LongOption, b: LongOption) {
    a.hasArg == b.hasArg && a.flag == b.flag && a.val == b.val
  }

  /** The first exact match; without one, the first option abbreviated, provided every other
      option abbreviated means the same. */
  ghost predicate Resolves(opts: seq<LongOption>, key: string, r: LongMatch) {
    match r
    case Match(k) =>
      && k < |opts|
      && (if opts[k].name == key then forall j :: 0 <= j < k ==> opts[j].name != key
          else
            && Abbreviates(key, opts[k])
            && (forall j :: 0 <= j < k ==> !Abbreviates(key, opts[j]))
            && (forall j :: 0 <= j < |opts| && Abbreviates(key, opts[j]) ==>
                  opts[j].name != key && Agree(opts[k], opts[j])))
    case NotFound => forall j :: 0 <= j < |opts| ==> !Abbreviates(key, opts[j])
    case Ambiguous =>
      && (forall j :: 0 <= j < |opts| ==> opts[j].name != key)
      && (exists i, j :: 0 <= i < j < |opts| && Abbreviates(key, opts[i]) && Abbreviates(key, opts[j])
                         && (forall h :: 0 <= h < i ==> !Abbreviates(key, opts[h]))
                         && !Agree(opts[i], opts[j]))
  }

  /** The search from option `i` on, with what was found before. */
  function LookupFrom(opts: seq<LongOption>, key: string, i: nat, found: Option<nat>, ambiguous: bool): LongMatch
    requires i <= |opts|
    requires found.Some? ==> found.value < |opts|
    decreases |opts| - i
  {
    if i == |opts| then
      if ambiguous then Ambiguous else if found.Some? then Match(found.value) else NotFound
    else if !Abbreviates(key, opts[i]) then LookupFrom(opts, key, i + 1, found, ambiguous)
    else if |key| == |opts[i].name| then Match(i)
    else if found.None? then LookupFrom(opts, key, i + 1, Some(i), ambiguous)
    else LookupFrom(opts, key, i + 1, found, ambiguous || !Agree(opts[found.value], opts[i]))
  }

  function Lookup(opts: seq<LongOption>, key: string): LongMatch {
    LookupFrom(opts, key, 0, None, false)
  }

  /** What the search knows before option `i`: no exact match, the first abbreviated option,
      and whether a later one differs from it. */
  ghost predicate Searched(opts: seq<LongOption>, key: string, i: nat, found: Option<nat>, ambiguous: bool) {
    && i <= |opts|
    && (forall j :: 0 <= j < i ==> opts[j].name != key)
    && match found
       case None => !ambiguous && forall j :: 0 <= j < i ==> !Abbreviates(key, opts[j])
       case Some(k) =>
         && k < i && Abbreviates(key, opts[k])
         && (forall j :: 0 <= j < k ==> !Abbreviates(key, opts[j]))
         && (ambiguous <==> exists j :: k < j < i && Abbreviates(key, opts[j]) && !Agree(opts[k], opts[j]))
  }

  lemma SearchEnds(opts: seq<LongOption>, key: string, found: Option<nat>, ambiguous: bool)
    requires Searched(opts, key, |opts|, found, ambiguous)
    ensures Resolves(opts, key, if ambiguous then Ambiguous else if found.Some? then Match(found.value) else NotFound)
  {
  }

  lemma SearchExact(opts: seq<LongOption>, key: string, i: nat, found: Option<nat>, ambiguous: bool)
    requires i < |opts| && Searched(opts, key, i, found, ambiguous) && opts[i].name == key
    ensures Resolves(opts, key, Match(i))
  {
  }

  lemma SearchGoesOn(opts: seq<LongOption>, key: string, i: nat, found: Option<nat>, ambiguous: bool)
    requires i < |opts| && Searched(opts, key, i, found, ambiguous) && opts[i].name != key
    ensures Searched(opts, key, i + 1,
                     if found.None? && Abbreviates(key, opts[i]) then Some(i) else found,
                     ambiguous || (found.Some? && Abbreviates(key, opts[i]) && !Agree(opts[found.value], opts[i])))
  {
  }

  /** The search finds what the rule for abbreviations says. */
  lemma {:induction false} LookupResolves(opts: seq<LongOption>, key: string, i: nat, found: Option<nat>, ambiguous: bool)
    requires Searched(opts, key, i, found, ambiguous)
    ensures Resolves(opts, key, LookupFrom(opts, key, i, found, ambiguous))
    decreases |opts| - i
  {
    hide Resolves, Agree;
    if i == |opts| {
      SearchEnds(opts, key, found, ambiguous);
    } else if opts[i].name == key {
      SearchExact(opts, key, i, found, ambiguous);
    } else {
      SearchGoesOn(opts, key, i, found, ambiguous);
      LookupResolves(opts, key, i + 1,
                     if found.None? && Abbreviates(key, opts[i]) then Some(i) else found,
                     ambiguous || (found.Some? && Abbreviates(key, opts[i]) && !Agree(opts[found.value], opts[i])));
    }
  }

  /** The name of a long option without the `=` part. */
  function Key(body: string): (k: string)
    ensures k <= body
  {
    body[..Find(body, '=', 0)]
  }

  // ----- One option with its argument

  /** What an option element makes of itself and of the arguments that follow it. */
  datatype Element = Element(events: seq<Event>, consumed: nat)

  function LongElement(cfg: Config, rest: seq<string>, body: string): (e: Element)
    requires cfg.long.Some? && rest != []
    ensures |e.events| == 1 && 1 <= e.consumed <= |rest| && e.consumed <= 2
  {
    var key := Key(body);
    match Lookup(cfg.long.value, key)
    case NotFound => Element([Event(QUESTION, None, Some(0), None)], 1)
    case Ambiguous => Element([Event(QUESTION, None, Some(0), None)], 1)
    case Match(k) =>
      LookupInRange(cfg.long.value, key);
      var o := cfg.long.value[k];
      var result := if o.flag != 0 then 0 else o.val;
      if |key| < |body| then
        if o.hasArg.NoArgument? then Element([Event(QUESTION, None, Some(o.val), None)], 1)
        else Element([Event(result, Some(body[|key| + 1..]), None, Some(k))], 1)
      else if o.hasArg.RequiredArgument? then
        if |rest| > 1 then Element([Event(result, Some(rest[1]), None, Some(k))], 2)
        else Element([Event(MissingResult(cfg), None, Some(o.val), None)], 1)
      else Element([Event(result, None, None, Some(k))], 1)
  }

  lemma LookupInRange(opts: seq<LongOption>, key: string)
    ensures Lookup(opts, key).Match? ==> Lookup(opts, key).index < |opts|
  {
    LookupResolves(opts, key, 0, None, false);
  }

  function Cluster(cfg: Config, rest: seq<string>, chars: string): (e: Element)
    requires rest != [] && chars != ""
    ensures 1 <= |e.events| <= |chars| && 1 <= e.consumed <= |rest| && e.consumed <= 2
    decreases |chars|, 0
  {
    var c, more := chars[0], chars[1..];
    match KindOf(cfg.short, c)
    case Unknown => Before(Event(QUESTION, None, Some(CharValue(c)), None), cfg, rest, more)
    case Plain => Before(Event(CharValue(c), None, None, None), cfg, rest, more)
    case Optional => Element([Event(CharValue(c), if more == "" then None else Some(more), None, None)], 1)
    case Required =>
      if more != "" then Element([Event(CharValue(c), Some(more), None, None)], 1)
      else if |rest| > 1 then Element([Event(CharValue(c), Some(rest[1]), None, None)], 2)
      else Element([Event(MissingResult(cfg), None, Some(CharValue(c)), None)], 1)
  }

  /** An event for one character, before those of the characters after it. */
  function Before(ev: Event, cfg: Config, rest: seq<string>, more: string): (e: Element)
    requires rest != []
    ensures 1 <= |e.events| <= 1 + |more| && 1 <= e.consumed <= |rest| && e.consumed <= 2
    decreases |more|, 1
  {
    if more == "" then Element([ev], 1)
    else
      var e := Cluster(cfg, rest, more);
      Element([ev] + e.events, e.consumed)
  }

  /** The last character of a cluster ends its element. */
  lemma BeforeNothing(ev: Event, cfg: Config, rest: seq<string>)
    requires rest != []
    ensures Before(ev, cfg, rest, "") == Element([ev], 1)
  {
  }

  /** The option at the head of `rest`, read from `chars` on. */
  function ReadOption(cfg: Config, rest: seq<string>, chars: string): (e: Element)
    requires rest != [] && !IsOperand(rest[0]) && chars != ""
    ensures |e.events| >= 1 && 1 <= e.consumed <= |rest| && e.consumed <= 2
  {
    if IsLong(cfg, rest[0]) then LongElement(cfg, rest, chars) else Cluster(cfg, rest, chars)
  }

  // ----- The whole command line

  /** The calls to come, the options with their arguments, and the operands. */
  datatype Parse = Parse(events: seq<Event>, options: seq<string>, operands: seq<string>)

  function Scan(cfg: Config, rest: seq<string>): Parse
    decreases |rest|
  {
    if rest == [] then Parse([], [], [])
    else if IsTerminator(rest[0]) then Parse([], [rest[0]], rest[1..])
    else if IsOperand(rest[0]) then
      var p := Scan(cfg, rest[1..]);
      p.(operands := [rest[0]] + p.operands)
    else Resume(cfg, rest, Body(cfg, rest[0]))
  }

  /** The scan with the option at the head of `rest` read as far as `chars`. */
  function Resume(cfg: Config, rest: seq<string>, chars: string): Parse
    requires rest != [] && !IsOperand(rest[0]) && chars != ""
    decreases |rest|, 0
  {
    var e := ReadOption(cfg, rest, chars);
    var p := Scan(cfg, rest[e.consumed..]);
    Parse(e.events + p.events, rest[..e.consumed] + p.options, p.operands)
  }

  // ----- A stable partition

  /** Which arguments belong to the options. */
  function Marks(cfg: Config, rest: seq<string>): (marks: seq<bool>)
    ensures |marks| == |rest|
    decreases |rest|
  {
    if rest == [] then []
    else if IsTerminator(rest[0]) then [true] + seq(|rest| - 1, _ => false)
    else if IsOperand(rest[0]) then [false] + Marks(cfg, rest[1..])
    else
      var n := ReadOption(cfg, rest, Body(cfg, rest[0])).consumed;
      seq(n, _ => true) + Marks(cfg, rest[n..])
  }

  /** The elements with a given mark, in their order. */
  function Select<T>(s: seq<T>, marks: seq<bool>, mark: bool): seq<T>
    requires |marks| == |s|
    decreases |s|
  {
    if s == [] then []
    else (if marks[0] == mark then [s[0]] else []) + Select(s[1..], marks[1..], mark)
  }

  lemma {:induction false} SelectAppend<T>(s: seq<T>, t: seq<T>, ms: seq<bool>, mt: seq<bool>, mark: bool)
    requires |ms| == |s| && |mt| == |t|
    ensures Select(s + t, ms + mt, mark) == Select(s, ms, mark) + Select(t, mt, mark)
    decreases |s|
  {
    if s == [] {
      assert s + t == t && ms + mt == mt;
    } else {
      var head := if ms[0] == mark then [s[0]] else [];
      calc {
        Select(s + t, ms + mt, mark);
      ==  { assert (s + t)[1..] == s[1..] + t && (ms + mt)[1..] == ms[1..] + mt; }
        head + Select(s[1..] + t, ms[1..] + mt, mark);
      ==  { SelectAppend(s[1..], t, ms[1..], mt, mark); }
        head + (Select(s[1..], ms[1..], mark) + Select(t, mt, mark));
      ==
        Select(s, ms, mark) + Select(t, mt, mark);
      }
    }
  }

  lemma {:induction false} SelectUniform<T>(s: seq<T>, marks: seq<bool>, mark: bool)
    requires |marks| == |s| && forall i :: 0 <= i < |marks| ==> marks[i] == mark
    ensures Select(s, marks, mark) == s && Select(s, marks, !mark) == []
    decreases |s|
  {
    if s == [] {
    } else {
      SelectUniform(s[1..], marks[1..], mark);
    }
  }

  /** The two lists of a scan are the arguments with one mark and with the other, each in the
      order of the command line. */
  lemma {:induction false} ScanIsStable(cfg: Config, rest: seq<string>)
    ensures Scan(cfg, rest).options == Select(rest, Marks(cfg, rest), true)
    ensures Scan(cfg, rest).operands == Select(rest, Marks(cfg, rest), false)
    decreases |rest|
  {
    if rest == [] {
    } else if IsTerminator(rest[0]) {
      SelectUniform(rest[1..], Marks(cfg, rest)[1..], false);
    } else if IsOperand(rest[0]) {
      ScanIsStable(cfg, rest[1..]);
      assert Marks(cfg, rest)[1..] == Marks(cfg, rest[1..]);
    } else {
      var n := ReadOption(cfg, rest, Body(cfg, rest[0])).consumed;
      var head := seq(n, _ => true);
      assert rest == rest[..n] + rest[n..];
      ScanIsStable(cfg, rest[n..]);
      SelectUniform(rest[..n], head, true);
      SelectAppend(rest[..n], rest[n..], head, Marks(cfg, rest[n..]), true);
      SelectAppend(rest[..n], rest[n..], head, Marks(cfg, rest[n..]), false);
    }
  }

  /** No argument is lost, added or changed. */
  lemma {:induction false} ScanIsPermutation(cfg: Config, rest: seq<string>)
    ensures multiset(Scan(cfg, rest).options + Scan(cfg, rest).operands) == multiset(rest)
    decreases |rest|
  {
    if rest == [] {
    } else if IsTerminator(rest[0]) {
      assert rest == [rest[0]] + rest[1..];
    } else if IsOperand(rest[0]) {
      ScanIsPermutation(cfg, rest[1..]);
      assert rest == [rest[0]] + rest[1..];
    } else {
      var n := ReadOption(cfg, rest, Body(cfg, rest[0])).consumed;
      ScanIsPermutation(cfg, rest[n..]);
      assert rest == rest[..n] + rest[n..];
    }
  }

  // ----- Scanning the permuted command line again

  /** The option needs its argument in the next element. */
  predicate WantsNext(cfg: Config, s: string)
    requires !IsOperand(s) && !IsTerminator(s)
  {
    ReadOption(cfg, [s, ""], Body(cfg, s)).consumed == 2
  }

  /** The line ends with an option whose required argument is missing. */
  predicate EndsStarved(cfg: Config, rest: seq<string>)
    decreases |rest|
  {
    rest != [] && !IsTerminator(rest[0])
    && if IsOperand(rest[0]) then EndsStarved(cfg, rest[1..])
       else if |rest| == 1 then WantsNext(cfg, rest[0])
       else EndsStarved(cfg, rest[ReadOption(cfg, rest, Body(cfg, rest[0])).consumed..])
  }

  /** A `--` is read as the end of the options. */
  predicate Terminated(cfg: Config, rest: seq<string>)
    decreases |rest|
  {
    rest != []
    && (IsTerminator(rest[0])
        || if IsOperand(rest[0]) then Terminated(cfg, rest[1..])
           else Terminated(cfg, rest[ReadOption(cfg, rest, Body(cfg, rest[0])).consumed..]))
  }

  predicate AllOperands(s: seq<string>) {
    forall i :: 0 <= i < |s| ==> IsOperand(s[i])
  }

  /** An option that does not want the next element reads the same whatever follows it, and one
      that does only depends on that element. */
  lemma {:induction false} ClusterLocal(cfg: Config, rest: seq<string>, other: seq<string>, chars: string)
    requires chars != "" && rest != [] && other != []
    requires Cluster(cfg, [rest[0], ""], chars).consumed == 2 ==>
               |rest| > 1 && |other| > 1 && rest[1] == other[1]
    ensures Cluster(cfg, other, chars) == Cluster(cfg, rest, chars)
    decreases |chars|
  {
    var more := chars[1..];
    if more == "" {
    } else {
      if KindOf(cfg.short, chars[0]).Unknown? || KindOf(cfg.short, chars[0]).Plain? {
        assert Cluster(cfg, [rest[0], ""], chars).consumed == Cluster(cfg, [rest[0], ""], more).consumed;
        ClusterLocal(cfg, rest, other, more);
      }
    }
  }

  lemma OptionLocal(cfg: Config, rest: seq<string>, other: seq<string>)
    requires rest != [] && other != [] && other[0] == rest[0]
    requires !IsOperand(rest[0]) && !IsTerminator(rest[0])
    requires WantsNext(cfg, rest[0]) ==> |rest| > 1 && |other| > 1 && rest[1] == other[1]
    ensures ReadOption(cfg, other, Body(cfg, rest[0])) == ReadOption(cfg, rest, Body(cfg, rest[0]))
  {
    if !IsLong(cfg, rest[0]) {
      ClusterLocal(cfg, rest, other, Body(cfg, rest[0]));
    }
  }

  lemma {:induction false} ClusterConsumes(cfg: Config, rest: seq<string>, other: seq<string>, chars: string)
    requires chars != "" && |rest| > 1 && |other| > 1
    ensures Cluster(cfg, other, chars).consumed == Cluster(cfg, rest, chars).consumed
    decreases |chars|
  {
    if chars[1..] == "" {
    } else {
      ClusterConsumes(cfg, rest, other, chars[1..]);
    }
  }

  /** An option takes the next element exactly when it wants it and there is one. */
  lemma OptionConsumes(cfg: Config, rest: seq<string>)
    requires rest != [] && !IsOperand(rest[0]) && !IsTerminator(rest[0])
    ensures ReadOption(cfg, rest, Body(cfg, rest[0])).consumed == if WantsNext(cfg, rest[0]) && |rest| > 1 then 2 else 1
  {
    if |rest| > 1 && !IsLong(cfg, rest[0]) {
      ClusterConsumes(cfg, rest, [rest[0], ""], Body(cfg, rest[0]));
    }
  }

  lemma {:induction false} OperandsScan(cfg: Config, tail: seq<string>)
    requires AllOperands(tail)
    ensures Scan(cfg, tail) == Parse([], [], tail)
    decreases |tail|
  {
    if tail == [] {
    } else {
      OperandsScan(cfg, tail[1..]);
    }
  }

  /** Without `--`, what is left over is only operands. */
  lemma {:induction false} LeftOverOperands(cfg: Config, rest: seq<string>)
    ensures Terminated(cfg, rest) || AllOperands(Scan(cfg, rest).operands)
    ensures EndsStarved(cfg, rest) ==> !Terminated(cfg, rest)
    decreases |rest|
  {
    if rest == [] || IsTerminator(rest[0]) {
    } else {
      if IsOperand(rest[0]) {
        LeftOverOperands(cfg, rest[1..]);
      } else {
        OptionConsumes(cfg, rest);
        LeftOverOperands(cfg, rest[ReadOption(cfg, rest, Body(cfg, rest[0])).consumed..]);
      }
    }
  }

  lemma ScanOption(cfg: Config, rest: seq<string>)
    requires rest != [] && !IsOperand(rest[0]) && !IsTerminator(rest[0])
    ensures var e := ReadOption(cfg, rest, Body(cfg, rest[0]));
            var q := Scan(cfg, rest[e.consumed..]);
            Scan(cfg, rest) == Parse(e.events + q.events, rest[..e.consumed] + q.options, q.operands)
  {
    assert Scan(cfg, rest) == Resume(cfg, rest, Body(cfg, rest[0]));
  }

  /** The options of a scan, followed by operands, scan to the same events and options. */
  lemma {:induction false} Rescan(cfg: Config, rest: seq<string>, tail: seq<string>)
    requires Terminated(cfg, rest) || AllOperands(tail)
    requires EndsStarved(cfg, rest) ==> tail == []
    ensures var p := Scan(cfg, rest);
            Scan(cfg, p.options + tail) == Parse(p.events, p.options, tail)
    decreases |rest|
  {
    hide Resume, ReadOption;
    var p := Scan(cfg, rest);
    if rest == [] {
      assert p.options + tail == tail;
      OperandsScan(cfg, tail);
    } else if IsTerminator(rest[0]) {
      assert ([rest[0]] + tail)[1..] == tail;
    } else if IsOperand(rest[0]) {
      Rescan(cfg, rest[1..], tail);
    } else {
      var e := ReadOption(cfg, rest, Body(cfg, rest[0]));
      var q := Scan(cfg, rest[e.consumed..]);
      OptionConsumes(cfg, rest);
      ScanOption(cfg, rest);
      Rescan(cfg, rest[e.consumed..], tail);
      var again := p.options + tail;
      assert again == rest[..e.consumed] + (q.options + tail);
      RescanHead(cfg, rest, again);
      assert again[e.consumed..] == q.options + tail;
      assert again[..e.consumed] == rest[..e.consumed];
      ScanOption(cfg, again);
    }
  }

  /** The option at the head reads the same, unless it was starved and is not any more. */
  lemma RescanHead(cfg: Config, rest: seq<string>, again: seq<string>)
    requires rest != [] && !IsOperand(rest[0]) && !IsTerminator(rest[0])
    requires var n := ReadOption(cfg, rest, Body(cfg, rest[0])).consumed;
             n <= |again| && again[..n] == rest[..n]
    requires WantsNext(cfg, rest[0]) && |rest| == 1 ==> again == rest
    ensures again != [] && again[0] == rest[0]
    ensures ReadOption(cfg, again, Body(cfg, rest[0])) == ReadOption(cfg, rest, Body(cfg, rest[0]))
  {
    hide ReadOption;
    OptionConsumes(cfg, rest);
    var n := ReadOption(cfg, rest, Body(cfg, rest[0])).consumed;
    assert again[0] == again[..n][0] == rest[..n][0];
    if again != rest {
      if WantsNext(cfg, rest[0]) {
        assert again[1] == again[..n][1] == rest[..n][1];
      }
      OptionLocal(cfg, rest, again);
    }
  }

  lemma StarvedTakes(cfg: Config, again: seq<string>)
    requires |again| > 1 && !IsOperand(again[0]) && !IsTerminator(again[0]) && WantsNext(cfg, again[0])
    requires AllOperands(again[1..])
    ensures Scan(cfg, again).options == [again[0], again[1]]
  {
    hide ReadOption;
    OptionConsumes(cfg, again);
    ScanOption(cfg, again);
    OperandsScan(cfg, again[2..]);
    assert again[..2] == [again[0], again[1]];
  }

  /** A starved option takes the first operand as its argument when it gets the chance. */
  lemma {:induction false} RescanStarved(cfg: Config, rest: seq<string>, tail: seq<string>)
    requires EndsStarved(cfg, rest) && tail != [] && AllOperands(tail)
    ensures Scan(cfg, Scan(cfg, rest).options + tail).options == Scan(cfg, rest).options + [tail[0]]
    decreases |rest|
  {
    hide Resume, ReadOption;
    var p := Scan(cfg, rest);
    if IsOperand(rest[0]) {
      RescanStarved(cfg, rest[1..], tail);
    } else {
      var e := ReadOption(cfg, rest, Body(cfg, rest[0]));
      var q := Scan(cfg, rest[e.consumed..]);
      OptionConsumes(cfg, rest);
      ScanOption(cfg, rest);
      var again := p.options + tail;
      assert again == rest[..e.consumed] + (q.options + tail);
      if |rest| == 1 {
        assert p.options == [rest[0]] && again == [rest[0]] + tail;
        StarvedTakes(cfg, again);
      } else {
        RescanStarved(cfg, rest[e.consumed..], tail);
        RescanHead(cfg, rest, again);
        ScanOption(cfg, again);
        assert again[e.consumed..] == q.options + tail;
        assert again[..e.consumed] == rest[..e.consumed];
      }
    }
  }

  /** Parsing the permuted command line gives the same events, options and operands, exactly
      unless the line ended with an option short of its argument and there are operands. */
  lemma RescanSame(cfg: Config, rest: seq<string>)
    ensures var p := Scan(cfg, rest);
            Scan(cfg, p.options + p.operands) == p <==> !(EndsStarved(cfg, rest) && p.operands != [])
  {
    var p := Scan(cfg, rest);
    LeftOverOperands(cfg, rest);
    if EndsStarved(cfg, rest) && p.operands != [] {
      RescanStarved(cfg, rest, p.operands);
    } else {
      Rescan(cfg, rest, p.operands);
    }
  }

  /** A command line on which parsing twice is not parsing once: `file -c`, with `c:`. */
  lemma RescanDiffers()
    ensures var cfg := Config("c:", None);
            var p := Scan(cfg, ["file", "-c"]);
            p.events == [Event(QUESTION, None, Some(CharValue('c')), None)]
            && p.options == ["-c"] && p.operands == ["file"]
            && Scan(cfg, p.options + p.operands).events == [Event(CharValue('c'), Some("file"), None, None)]
  {
    var cfg := Config("c:", None);
    assert Find("c:", 'c', 0) == 0 && KindOf("c:", 'c') == Required;
    assert ["file", "-c"][1..] == ["-c"] && "-c"[1..] == "c";
    assert Scan(cfg, ["-c"][1..]) == Parse([], [], []);
    assert ["-c"] + ["file"] == ["-c", "file"] && ["-c", "file"][2..] == [];
    assert Scan(cfg, ["-c"]) == Resume(cfg, ["-c"], "c");
    assert Scan(cfg, ["-c", "file"]) == Resume(cfg, ["-c", "file"], "c");
  }

  // ----- The value that ends a scan

  /** No option is declared with the value -1, which `getopt` returns at the end: no long option, and
      not the character whose number it is. */
  predicate EndIsDistinct(cfg: Config) {
    && (forall c :: c in cfg.short ==> CharValue(c) != -1)
    && (cfg.long.Some? ==>
          forall k :: 0 <= k < |cfg.long.value| ==> cfg.long.value[k].flag != 0 || cfg.long.value[k].val != -1)
  }

  predicate NoneEnds(events: seq<Event>) {
    forall i :: 0 <= i < |events| ==> events[i].result != -1
  }

  lemma DeclaredOrUnknown(short: string, c: char)
    ensures KindOf(short, c).Unknown? || c in short
  {
    assert Find(short, c, 0) < |short| ==> short[Find(short, c, 0)] in short;
  }

  lemma {:induction false} ClusterNeverEnds(cfg: Config, rest: seq<string>, chars: string)
    requires EndIsDistinct(cfg) && rest != [] && chars != ""
    ensures NoneEnds(Cluster(cfg, rest, chars).events)
    decreases |chars|
  {
    DeclaredOrUnknown(cfg.short, chars[0]);
    if chars[1..] == "" {
    } else {
      ClusterNeverEnds(cfg, rest, chars[1..]);
    }
  }

  /** Then only the end of a scan reports -1. */
  lemma {:induction false} ScanNeverEnds(cfg: Config, rest: seq<string>)
    requires EndIsDistinct(cfg)
    ensures NoneEnds(Scan(cfg, rest).events)
    decreases |rest|
  {
    if rest == [] || IsTerminator(rest[0]) {
    } else {
      if IsOperand(rest[0]) {
        ScanNeverEnds(cfg, rest[1..]);
      } else {
        ScanOption(cfg, rest);
        if !IsLong(cfg, rest[0]) {
          ClusterNeverEnds(cfg, rest, Body(cfg, rest[0]));
        } else {
          LookupInRange(cfg.long.value, Key(Body(cfg, rest[0])));
        }
        ScanNeverEnds(cfg, rest[ReadOption(cfg, rest, Body(cfg, rest[0])).consumed..]);
      }
    }
  }

  // ----- What is reported, from the text of the line

  /** The rule for abbreviations decides every search. */
  lemma ResolvesOnce(opts: seq<LongOption>, key: string, r: LongMatch)
    requires Resolves(opts, key, r)
    ensures Lookup(opts, key) == r
  {
    LookupResolves(opts, key, 0, None, false);
    ResolvesUnique(opts, key, Lookup(opts, key), r);
  }

  lemma ResolvesUnique(opts: seq<LongOption>, key: string, r: LongMatch, t: LongMatch)
    requires Resolves(opts, key, r) && Resolves(opts, key, t)
    ensures r == t
  {
    if r.Match? && opts[r.index].name == key {
      assert Abbreviates(key, opts[r.index]);
    }
    if t.Match? && opts[t.index].name == key {
      assert Abbreviates(key, opts[t.index]);
    }
  }

  /** The first `=` ends the name. */
  lemma {:induction false} FindFirst(s: string, c: char, i: nat, k: nat)
    requires i <= k <= |s| && c !in s[i..k] && (k < |s| ==> s[k] == c)
    ensures Find(s, c, i) == k
    decreases k - i
  {
    if i == k {
    } else {
      assert s[i] in s[i..k] && forall x :: x in s[i + 1..k] ==> x in s[i..k];
      FindFirst(s, c, i + 1, k);
    }
  }

  /** What reading a long option gives: one event, and how many arguments are gone. */
  lemma LongRead(cfg: Config, rest: seq<string>, ev: Event, consumed: nat)
    requires cfg.long.Some? && rest != [] && |rest[0]| > 2 && rest[0][..2] == "--"
    requires LongElement(cfg, rest, rest[0][2..]) == Element([ev], consumed) && consumed <= |rest|
    ensures var p, q := Scan(cfg, rest), Scan(cfg, rest[consumed..]);
            p.events == [ev] + q.events && p.options == rest[..consumed] + q.options && p.operands == q.operands
  {
    assert rest[0][0] == '-' && rest[0][1] == '-' && rest[0] != "--";
    ScanOption(cfg, rest);
  }

  /** The result of an option: its value, or zero when it is stored through `flag`. */
  function Declared(o: LongOption): int {
    if o.flag == 0 then o.val else 0
  }

  /** What reports a missing argument: a colon if the option string begins with one, else a question mark. */
  function Complaint(cfg: Config): int {
    if ":" <= cfg.short then 58 else 63
  }

  /** `--name=value`, for an option that the name stands for: its result and the text after the first
      equals sign; or a complaint, when it takes no argument. */
  lemma LongWithValue(cfg: Config, name: string, value: string, tail: seq<string>, k: nat)
    requires cfg.long.Some? && '=' !in name && Resolves(cfg.long.value, name, Match(k))
    ensures var p, q, o := Scan(cfg, ["--" + name + "=" + value] + tail), Scan(cfg, tail), cfg.long.value[k];
            && p.options == ["--" + name + "=" + value] + q.options && p.operands == q.operands
            && p.events ==
               [if o.hasArg.NoArgument? then Event(63, None, Some(o.val), None)
                else Event(Declared(o), Some(value), None, Some(k))] + q.events
  {
    hide LongElement, Resolves, Scan;
    var word := "--" + name + "=" + value;
    var rest := [word] + tail;
    assert word[2..] == name + "=" + value && rest[1..] == tail && rest[..1] == [word];
    LongValueElement(cfg, rest, name, value, k);
    LongRead(cfg, rest, LongElement(cfg, rest, word[2..]).events[0], 1);
  }

  lemma LongValueElement(cfg: Config, rest: seq<string>, name: string, value: string, k: nat)
    requires cfg.long.Some? && rest != [] && '=' !in name && Resolves(cfg.long.value, name, Match(k))
    ensures var o := cfg.long.value[k];
            LongElement(cfg, rest, name + "=" + value) ==
            Element([if o.hasArg.NoArgument? then Event(63, None, Some(o.val), None)
                     else Event(Declared(o), Some(value), None, Some(k))], 1)
  {
    hide Lookup;
    var body := name + "=" + value;
    assert body[0..|name|] == name;
    FindFirst(body, '=', 0, |name|);
    ResolvesOnce(cfg.long.value, name, Match(k));
    assert body[..|name|] == name && body[|name| + 1..] == value;
  }

  /** `--name` alone: a required argument is the next of the line, whatever it looks like, and is missing
      at the end; an optional one is absent. */
  lemma LongAlone(cfg: Config, name: string, tail: seq<string>, k: nat)
    requires cfg.long.Some? && name != "" && '=' !in name && Resolves(cfg.long.value, name, Match(k))
    ensures var p, o := Scan(cfg, ["--" + name] + tail), cfg.long.value[k];
            if !o.hasArg.RequiredArgument? then
              var q := Scan(cfg, tail);
              && p.events == [Event(Declared(o), None, None, Some(k))] + q.events
              && p.options == ["--" + name] + q.options && p.operands == q.operands
            else if tail != [] then
              var q := Scan(cfg, tail[1..]);
              && p.events == [Event(Declared(o), Some(tail[0]), None, Some(k))] + q.events
              && p.options == ["--" + name, tail[0]] + q.options && p.operands == q.operands
            else
              p == Parse([Event(Complaint(cfg), None, Some(o.val), None)], ["--" + name], [])
  {
    hide LongElement, Resolves, Scan;
    var word := "--" + name;
    var rest := [word] + tail;
    assert word[2..] == name && rest[1..] == tail && rest[..1] == [word];
    LongAloneElement(cfg, rest, name, k);
    var e := LongElement(cfg, rest, name);
    LongRead(cfg, rest, e.events[0], e.consumed);
    if e.consumed == 2 {
      assert rest[2..] == tail[1..] && rest[..2] == [word, tail[0]];
    } else if tail == [] {
      NothingToScan(cfg);
    }
  }

  lemma NothingToScan(cfg: Config)
    ensures Scan(cfg, []) == Parse([], [], [])
  {
  }

  lemma LongAloneElement(cfg: Config, rest: seq<string>, name: string, k: nat)
    requires cfg.long.Some? && rest != [] && '=' !in name && Resolves(cfg.long.value, name, Match(k))
    ensures var o := cfg.long.value[k];
            LongElement(cfg, rest, name) ==
            if !o.hasArg.RequiredArgument? then Element([Event(Declared(o), None, None, Some(k))], 1)
            else if |rest| > 1 then Element([Event(Declared(o), Some(rest[1]), None, Some(k))], 2)
            else Element([Event(Complaint(cfg), None, Some(o.val), None)], 1)
  {
    hide Lookup;
    assert name[0..|name|] == name;
    FindFirst(name, '=', 0, |name|);
    assert name[..|name|] == name;
    ResolvesOnce(cfg.long.value, name, Match(k));
  }

  /** A name that stands for no option, or for different ones, is complained about with `optopt` 0 and
      takes nothing but itself. */
  lemma LongUnknown(cfg: Config, name: string, suffix: string, tail: seq<string>, r: LongMatch)
    requires cfg.long.Some? && '=' !in name && Resolves(cfg.long.value, name, r) && !r.Match?
    requires name + suffix != "" && (suffix != "" ==> suffix[0] == '=')
    ensures var p, q := Scan(cfg, ["--" + name + suffix] + tail), Scan(cfg, tail);
            && p.events == [Event(63, None, Some(0), None)] + q.events
            && p.options == ["--" + name + suffix] + q.options && p.operands == q.operands
  {
    hide Resolves, Scan, Lookup;
    var word := "--" + name + suffix;
    var rest := [word] + tail;
    var body := name + suffix;
    assert word[2..] == body && rest[1..] == tail && rest[..1] == [word];
    assert body[0..|name|] == name;
    FindFirst(body, '=', 0, |name|);
    assert body[..|name|] == name;
    ResolvesOnce(cfg.long.value, name, r);
    LongRead(cfg, rest, Event(63, None, Some(0), None), 1);
  }

  /** A dash and other characters that are not a long option are read one by one. */
  lemma ShortRead(cfg: Config, chars: string, tail: seq<string>)
    requires chars != "" && !(chars[0] == '-' && (cfg.long.Some? || |chars| == 1))
    ensures Scan(cfg, ["-" + chars] + tail) == Resume(cfg, ["-" + chars] + tail, chars)
  {
    var word := "-" + chars;
    assert word[0] == '-' && word[1] == chars[0] && word[1..] == chars;
  }

  /** Where a short option is declared: the first place of its character. */
  predicate DeclaredAt(short: string, c: char, k: nat) {
    k < |short| && short[k] == c && c !in short[..k] && c != ':'
  }

  /** The number of colons that follow, up to two. */
  predicate Colons(short: string, k: nat, n: nat)
    requires k < |short|
  {
    match n
    case 0 => k + 1 == |short| || short[k + 1] != ':'
    case 1 => k + 1 < |short| && short[k + 1] == ':' && (k + 2 == |short| || short[k + 2] != ':')
    case _ => k + 2 < |short| && short[k + 1] == ':' && short[k + 2] == ':'
  }

  lemma DeclaredKind(short: string, c: char, k: nat)
    requires DeclaredAt(short, c, k)
    ensures Colons(short, k, 0) ==> KindOf(short, c).Plain?
    ensures Colons(short, k, 1) ==> KindOf(short, c).Required?
    ensures Colons(short, k, 2) ==> KindOf(short, c).Optional?
  {
    assert short[0..k] == short[..k];
    FindFirst(short, c, 0, k);
  }

  lemma UndeclaredKind(short: string, c: char)
    requires c !in short || c == ':'
    ensures KindOf(short, c).Unknown?
  {
    if c !in short {
      assert short[0..|short|] == short;
      FindFirst(short, c, 0, |short|);
    }
  }

  /** The number of a byte: itself, or 256 less from 128 on. */
  lemma ByteValue(c: char)
    requires c as int < 256
    ensures -128 <= CharValue(c) < 128 && (CharValue(c) - c as int) % 256 == 0
  {
  }

  /** An event of one character, and the rest of its element. */
  predicate Reads(cfg: Config, rest: seq<string>, c: char, more: string, ev: Event)
    requires rest != [] && !IsOperand(rest[0])
  {
    var p := Resume(cfg, rest, [c] + more);
    if more == "" then
      var q := Scan(cfg, rest[1..]);
      p == Parse([ev] + q.events, [rest[0]] + q.options, q.operands)
    else
      var q := Resume(cfg, rest, more);
      p == Parse([ev] + q.events, q.options, q.operands)
  }

  lemma OneByOne(cfg: Config, rest: seq<string>, c: char, more: string, ev: Event)
    requires rest != [] && !IsOperand(rest[0]) && !IsLong(cfg, rest[0])
    requires Cluster(cfg, rest, [c] + more) == Before(ev, cfg, rest, more)
    ensures Reads(cfg, rest, c, more, ev)
  {
    hide Scan;
    if more == "" {
      BeforeNothing(ev, cfg, rest);
      assert rest[..1] == [rest[0]];
    } else {
      var e := Cluster(cfg, rest, more);
      var q := Scan(cfg, rest[e.consumed..]);
      assert ([ev] + e.events) + q.events == [ev] + (e.events + q.events);
    }
  }

  /** A character that is not declared, or a colon, is complained about, and the next one read. */
  lemma ShortUnknown(cfg: Config, rest: seq<string>, c: char, more: string)
    requires rest != [] && !IsOperand(rest[0]) && !IsLong(cfg, rest[0]) && (c !in cfg.short || c == ':')
    ensures Reads(cfg, rest, c, more, Event(63, None, Some(CharValue(c)), None))
  {
    hide Reads, Before;
    UndeclaredKind(cfg.short, c);
    assert ([c] + more)[1..] == more;
    OneByOne(cfg, rest, c, more, Event(63, None, Some(CharValue(c)), None));
  }

  /** A character with no colon is reported, and the next one read. */
  lemma ShortPlain(cfg: Config, rest: seq<string>, c: char, more: string, k: nat)
    requires rest != [] && !IsOperand(rest[0]) && !IsLong(cfg, rest[0])
    requires DeclaredAt(cfg.short, c, k) && Colons(cfg.short, k, 0)
    ensures Reads(cfg, rest, c, more, Event(CharValue(c), None, None, None))
  {
    hide Reads, Before;
    DeclaredKind(cfg.short, c, k);
    assert ([c] + more)[1..] == more;
    OneByOne(cfg, rest, c, more, Event(CharValue(c), None, None, None));
  }

  /** A character with one colon takes what is left of its element, or the next argument, or complains;
      with two colons, what is left or nothing. */
  lemma ShortWithArgument(cfg: Config, rest: seq<string>, c: char, more: string, k: nat, n: nat)
    requires rest != [] && !IsOperand(rest[0]) && !IsLong(cfg, rest[0])
    requires DeclaredAt(cfg.short, c, k) && 1 <= n <= 2 && Colons(cfg.short, k, n)
    ensures var p := Resume(cfg, rest, [c] + more);
            if more != "" || n == 2 then
              var q := Scan(cfg, rest[1..]);
              p == Parse([Event(CharValue(c), if more == "" then None else Some(more), None, None)] + q.events,
                         [rest[0]] + q.options, q.operands)
            else if |rest| > 1 then
              var q := Scan(cfg, rest[2..]);
              p == Parse([Event(CharValue(c), Some(rest[1]), None, None)] + q.events,
                         [rest[0], rest[1]] + q.options, q.operands)
            else
              p == Parse([Event(Complaint(cfg), None, Some(CharValue(c)), None)], [rest[0]], [])
  {
    hide Scan;
    DeclaredKind(cfg.short, c, k);
    assert ([c] + more)[1..] == more;
    assert rest[..1] == [rest[0]];
    if |rest| > 1 {
      assert rest[..2] == [rest[0], rest[1]];
    } else {
      NothingToScan(cfg);
      assert rest[1..] == [];
    }
  }

  /** An argument without a dash in front, or a dash alone, is an operand; `--` ends the options. */
  lemma OthersRead(cfg: Config, arg: string, tail: seq<string>)
    ensures !("-" <= arg) || arg == "-" ==>
              Scan(cfg, [arg] + tail) == Scan(cfg, tail).(operands := [arg] + Scan(cfg, tail).operands)
    ensures arg == "--" ==> Scan(cfg, [arg] + tail) == Parse([], ["--"], tail)
  {
    assert ([arg] + tail)[1..] == tail;
  }
}
