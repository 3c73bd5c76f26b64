/** The resumable argument scanner (getopt/getopt.c), in its permuting mode: every call takes one
    event off what the command line means, and moves arguments without changing that meaning. */
module GetoptObject {
  import opened Options
  import opened Words
  import opened Arguments

  /** The text of an array of arguments with `[lo, mid)` and `[mid, hi)` exchanged. */
  function Exchanged<T>(s: seq<T>, lo: nat, mid: nat, hi: nat): (r: seq<T>)
    requires lo <= mid <= hi <= |s|
    ensures |r| == |s|
  {
    s[..lo] + s[mid..hi] + s[lo..mid] + s[hi..]
  }

  /** `now` is `was` with the `len` elements at `lo` and at `hi` swapped one by one. */
  predicate Swapped<T(==)>(was: seq<T>, now: seq<T>, lo: nat, hi: nat, len: nat)
    requires lo + len <= hi && hi + len <= |was|
  {
    && |now| == |was|
    && (forall k :: lo <= k < lo + len ==> now[k] == was[k + (hi - lo)])
    && (forall k :: hi <= k < hi + len ==> now[k] == was[k - (hi - lo)])
    && (forall k :: 0 <= k < |was| && !(lo <= k < lo + len) && !(hi <= k < hi + len) ==> now[k] == was[k])
  }

  /** Exchanging `[lo, mid)` and `[mid, hi)` of `now` is all that is left to do to get `goal`. */
  predicate Remaining<T(==)>(now: seq<T>, goal: seq<T>, lo: nat, mid: nat, hi: nat)
    requires lo <= mid <= hi <= |now|
  {
    && |goal| == |now|
    && (forall k :: lo <= k < lo + (hi - mid) ==> goal[k] == now[k + (mid - lo)])
    && (forall k :: lo + (hi - mid) <= k < hi ==> goal[k] == now[k - (hi - mid)])
    && (forall k :: 0 <= k < |now| && !(lo <= k < hi) ==> goal[k] == now[k])
  }

  lemma AtStart<T>(s: seq<T>, lo: nat, mid: nat, hi: nat)
    requires lo <= mid <= hi <= |s|
    ensures Remaining(s, Exchanged(s, lo, mid, hi), lo, mid, hi)
  {
  }

  lemma AtEnd<T>(now: seq<T>, goal: seq<T>, lo: nat, mid: nat, hi: nat)
    requires lo <= mid <= hi <= |now| && (lo == mid || mid == hi)
    requires Remaining(now, goal, lo, mid, hi)
    ensures now == goal
  {
    forall k | 0 <= k < |now|
      ensures now[k] == goal[k]
    {
      if lo <= k < hi {
        assert if lo == mid then goal[k] == now[k + 0] else goal[k] == now[k - 0];
      }
    }
  }

  /** The shorter first segment goes to its final place at the end. */
  lemma BottomStep<T>(was: seq<T>, now: seq<T>, goal: seq<T>, lo: nat, mid: nat, hi: nat)
    requires lo <= mid <= hi <= |was| && hi - mid > mid - lo
    requires Remaining(was, goal, lo, mid, hi)
    requires Swapped(was, now, lo, hi - (mid - lo), mid - lo)
    ensures Remaining(now, goal, lo, mid, hi - (mid - lo))
  {
  }

  /** The shorter or equal second segment goes to its final place at the start. */
  lemma TopStep<T>(was: seq<T>, now: seq<T>, goal: seq<T>, lo: nat, mid: nat, hi: nat)
    requires lo <= mid <= hi <= |was| && hi - mid <= mid - lo
    requires Remaining(was, goal, lo, mid, hi)
    requires Swapped(was, now, lo, mid, hi - mid)
    ensures Remaining(now, goal, lo + (hi - mid), mid, hi)
  {
  }

  /** The swap loop of `exchange`: two segments of the same length that do not overlap. */
  method SwapSegments(argv: array<string>, lo: nat, hi: nat, len: nat)
    requires lo + len <= hi && hi + len <= argv.Length
    modifies argv
    ensures Swapped(old(argv[..]), argv[..], lo, hi, len)
  {
    ghost var was, d := argv[..], hi - lo;
    var i := 0;
    while i < len
      invariant 0 <= i <= len
      invariant forall k :: lo <= k < lo + i ==> argv[k] == was[k + d]
      invariant forall k :: hi <= k < hi + i ==> argv[k] == was[k - d]
      invariant forall k :: 0 <= k < argv.Length && !(lo <= k < lo + i) && !(hi <= k < hi + i) ==> argv[k] == was[k]
    {
      var tem := argv[lo + i];
      argv[lo + i] := argv[hi + i];
      argv[hi + i] := tem;
      i := i + 1;
    }
  }

  // ----- What a state of the scanner means

  datatype State = State(args: seq<string>, optind: nat, nextchar: string, first: nat, last: nat)

  /** The scan is at an argument, or inside an option whose remaining characters are `nextchar`.
      The operands skipped so far are `[first, last)`, cut off at `optind` if it was moved back. */
  predicate Sane(cfg: Config, s: State) {
    && 1 <= s.first <= s.last
    && 1 <= s.optind <= |s.args|
    && (s.nextchar != "" ==>
          && s.last <= s.optind < |s.args|
          && !IsOperand(s.args[s.optind]) && !IsTerminator(s.args[s.optind])
          && (IsLong(cfg, s.args[s.optind]) ==> s.nextchar == Body(cfg, s.args[s.optind])))
  }

  /** The events still to come, all options and all operands, wherever they are now. */
  function Meaning(cfg: Config, s: State): Parse
    requires Sane(cfg, s)
  {
    var f, l, rest := Min(s.first, s.optind), Min(s.last, s.optind), s.args[s.optind..];
    var p := if s.nextchar == "" then Scan(cfg, rest) else Resume(cfg, rest, s.nextchar);
    Parse(p.events, s.args[1..f] + s.args[l..s.optind] + p.options, s.args[f..l] + p.operands)
  }

  /** Cutting the bounds off at `optind` is what the meaning does anyway. */
  lemma NormalMeans(cfg: Config, s: State)
    requires Sane(cfg, s) && s.nextchar == ""
    ensures var n := s.(first := Min(s.first, s.optind), last := Min(s.last, s.optind));
            Sane(cfg, n) && Meaning(cfg, n) == Meaning(cfg, s)
  {
    hide Scan, Resume;
    var n := s.(first := Min(s.first, s.optind), last := Min(s.last, s.optind));
    assert Min(n.first, n.optind) == n.first && Min(n.last, n.optind) == n.last;
  }

  lemma Rejoin(args: seq<string>, k: nat)
    requires 1 <= k <= |args|
    ensures args[1..] == args[1..k] + args[k..]
  {
  }

  lemma TerminatorMoved(args: seq<string>, first: nat, last: nat)
    requires 1 <= first <= last < |args|
    ensures var moved := Exchanged(args, first, last, last + 1);
            && moved[1..first + 1] == args[1..first] + [args[last]]
            && moved[first + 1..] == args[first..last] + args[last + 1..]
            && moved[0] == args[0]
    ensures first == last ==>
              && args[1..last + 1] == args[1..first] + [args[last]]
              && args[last + 1..] == args[first..last] + args[last + 1..]
  {
    hide Exchanged;
    var moved := Exchanged(args, first, last, last + 1);
    ExchangedOne(args, first, last);
    var head, block, rest := args[..first], args[first..last], args[last + 1..];
    assert moved == (head + [args[last]]) + (block + rest);
    assert moved[..first + 1] == head + [args[last]];
    assert moved[1..first + 1] == head[1..] + [args[last]];
    assert moved[first + 1..] == block + rest;
    if first == last {
      assert args[1..last + 1] == args[1..first] + [args[last]];
    }
  }

  lemma ExchangedOne(args: seq<string>, first: nat, last: nat)
    requires first <= last < |args|
    ensures Exchanged(args, first, last, last + 1) ==
            (args[..first] + [args[last]]) + (args[first..last] + args[last + 1..])
  {
    assert args[last..last + 1] == [args[last]];
  }

  /** What a caller sees of an event. */
  datatype Report = Report(result: int, arg: Option<string>, index: Option<nat>)

  function Reports(events: seq<Event>): (r: seq<Report>)
    ensures |r| == |events|
  {
    if events == [] then []
    else [Report(events[0].result, events[0].arg, events[0].index)] + Reports(events[1..])
  }

  lemma Associates<T>(a: seq<T>, b: seq<T>, c: seq<T>)
    ensures a + (b + c) == a + b + c
  {
  }

  /** One more event reported. */
  lemma ReportsNext(all: seq<Event>, reported: seq<Report>, left: seq<Event>)
    requires Reports(all) == reported + Reports(left) && left != []
    ensures Reports(all) == reported + [Report(left[0].result, left[0].arg, left[0].index)] + Reports(left[1..])
  {
    var report := Report(left[0].result, left[0].arg, left[0].index);
    assert Reports(left) == [report] + Reports(left[1..]);
    Associates(reported, [report], Reports(left[1..]));
  }

  /** Reports that stop at an event that is -1, or at the end, are all of them when none is. */
  lemma WholeReport(events: seq<Event>, reports: seq<Report>)
    requires NoneEnds(events) && reports <= Reports(events)
    ensures |reports| == |events| ==> reports == Reports(events)
    ensures |reports| < |events| ==> events[|reports|].result != -1
  {
    hide Reports;
    if |reports| == |events| {
      assert reports == Reports(events)[..|events|] == Reports(events);
    }
  }

  /** A scan that has just begun means what its arguments mean. */
  lemma StartOfScan(cfg: Config, args: seq<string>)
    requires |args| >= 1
    ensures var s := State(args, 1, "", 1, 1);
            Sane(cfg, s) && Meaning(cfg, s) == Scan(cfg, args[1..])
  {
    assert args[1..1] == [];
  }

  /** Moving the skipped operands behind the options after them keeps the meaning. */
  lemma ExchangeMeans(cfg: Config, s: State)
    requires Sane(cfg, s) && s.nextchar == "" && s.last <= s.optind
    ensures var n := s.(args := Exchanged(s.args, s.first, s.last, s.optind),
                        first := s.first + (s.optind - s.last), last := s.optind);
            Sane(cfg, n) && Meaning(cfg, n) == Meaning(cfg, s) && n.args[0] == s.args[0]
  {
    hide Scan;
    var n := s.(args := Exchanged(s.args, s.first, s.last, s.optind),
                first := s.first + (s.optind - s.last), last := s.optind);
    assert n.args[1..n.first] == s.args[1..s.first] + s.args[s.last..s.optind];
    assert n.args[n.first..n.last] == s.args[s.first..s.last];
    assert n.args[n.optind..] == s.args[s.optind..];
    assert n.args[n.last..n.optind] == [];
  }

  /** With no operand skipped, the options read are simply all behind. */
  lemma NothingSkipped(cfg: Config, s: State, last: nat)
    requires Sane(cfg, s) && s.nextchar == "" && s.first == s.last <= s.optind <= last
    ensures var n := s.(first := s.optind, last := last);
            Sane(cfg, n) && Meaning(cfg, n) == Meaning(cfg, s)
  {
    hide Scan;
    assert s.args[1..s.first] + s.args[s.last..s.optind] == s.args[1..s.optind];
    assert s.args[s.optind..s.optind] == [] && s.args[s.first..s.last] == [];
  }

  /** Skipping one operand that follows the skipped ones. */
  lemma SkipMeans(cfg: Config, s: State)
    requires Sane(cfg, s) && s.nextchar == "" && s.last == s.optind < |s.args|
    requires IsOperand(s.args[s.optind])
    ensures var n := s.(optind := s.optind + 1, last := s.optind + 1);
            Sane(cfg, n) && Meaning(cfg, n) == Meaning(cfg, s)
  {
    hide Resume;
    var n := s.(optind := s.optind + 1, last := s.optind + 1);
    assert s.args[s.optind..][1..] == n.args[n.optind..];
    assert n.args[n.first..n.last] == s.args[s.first..s.last] + [s.args[s.optind]];
    assert s.args[s.optind..s.optind] == [] && n.args[n.optind..n.optind] == [];
  }

  /** At the end of the scan the skipped operands are all the operands. */
  lemma EndMeans(cfg: Config, s: State)
    requires Sane(cfg, s) && s.nextchar == "" && s.last == s.optind == |s.args|
    ensures var p := Meaning(cfg, s);
            p.events == [] && s.args[1..] == p.options + p.operands && s.first == 1 + |p.options|
  {
    assert s.args[s.optind..] == [] && s.args[s.last..s.optind] == [];
    assert s.args[1..] == s.args[1..s.first] + s.args[s.first..s.last];
  }

  /** The first `--` goes with the options; what is left of the line is operands. */
  lemma TerminatorMeans(cfg: Config, s: State)
    requires Sane(cfg, s) && s.nextchar == "" && s.last == s.optind < |s.args|
    requires IsTerminator(s.args[s.optind])
    ensures var p := Meaning(cfg, s);
            && p.events == []
            && p.options == s.args[1..s.first] + ["--"]
            && p.operands == s.args[s.first..s.last] + s.args[s.optind + 1..]
  {
    hide Resume;
    assert s.args[s.optind..][1..] == s.args[s.optind + 1..];
    assert s.args[s.last..s.optind] == [];
  }

  /** Starting on an option element. */
  lemma StartMeans(cfg: Config, s: State)
    requires Sane(cfg, s) && s.nextchar == "" && s.last == s.optind < |s.args|
    requires !IsOperand(s.args[s.optind]) && !IsTerminator(s.args[s.optind])
    ensures var n := s.(nextchar := Body(cfg, s.args[s.optind]));
            Sane(cfg, n) && Meaning(cfg, n) == Meaning(cfg, s)
  {
    hide Resume;
  }

  /** Finishing an option element takes its events and leaves its arguments with the options. */
  lemma ConsumeMeans(cfg: Config, s: State)
    requires Sane(cfg, s) && s.nextchar != ""
    ensures var e := ReadOption(cfg, s.args[s.optind..], s.nextchar);
            && s.optind + e.consumed <= |s.args|
            && var n := s.(nextchar := "", optind := s.optind + e.consumed);
            Sane(cfg, n)
            && Meaning(cfg, s) == Meaning(cfg, n).(events := e.events + Meaning(cfg, n).events)
  {
    hide Scan, ReadOption;
    var rest := s.args[s.optind..];
    var e := ReadOption(cfg, rest, s.nextchar);
    var n := s.(nextchar := "", optind := s.optind + e.consumed);
    assert rest[e.consumed..] == n.args[n.optind..];
    assert s.args[s.last..s.optind] + rest[..e.consumed] == n.args[n.last..n.optind];
  }

  /** Going on inside a cluster of short options takes the event of one character. */
  lemma ClusterMeans(cfg: Config, s: State, ev: Event)
    requires Sane(cfg, s) && |s.nextchar| > 1 && !IsLong(cfg, s.args[s.optind])
    requires var rest := s.args[s.optind..];
             Cluster(cfg, rest, s.nextchar) == Before(ev, cfg, rest, s.nextchar[1..])
    ensures var n := s.(nextchar := s.nextchar[1..]);
            Sane(cfg, n) && Meaning(cfg, s) == Meaning(cfg, n).(events := [ev] + Meaning(cfg, n).events)
  {
    hide Scan;
    var n, rest := s.(nextchar := s.nextchar[1..]), s.args[s.optind..];
    var e := Cluster(cfg, rest, n.nextchar);
    assert Cluster(cfg, rest, s.nextchar).events == [ev] + e.events;
    var p := Scan(cfg, rest[e.consumed..]);
    assert ([ev] + e.events) + p.events == [ev] + (e.events + p.events);
  }

  /** A call that reports something leaves less to read: a later element, or the same element with
      fewer characters left. */
  predicate Advances(s: State, n: State) {
    || n.optind > s.optind
    || (n.optind == s.optind && n.nextchar != "" && (s.nextchar == "" || |n.nextchar| < |s.nextchar|))
  }

  class Getopt {
    const cfg: Config
    const argv: array<string>

    var optind: nat
    var optarg: Option<string>
    var optopt: int
    var nextchar: string
    var firstNonopt: nat
    var lastNonopt: nat
    var initialized: bool

    constructor (cfg: Config, argv: array<string>)
      ensures this.cfg == cfg && this.argv == argv
      ensures optind == 1 && !initialized
    {
      this.cfg, this.argv := cfg, argv;
      optind, optarg, optopt := 1, None, QUESTION;
      nextchar, firstNonopt, lastNonopt, initialized := "", 0, 0, false;
    }

    /** The block of skipped operands and the block of options after it change places, and the
        bounds describe the operands where they are now. */
    method Exchange()
      requires firstNonopt <= lastNonopt <= optind <= argv.Length
      modifies argv, this`firstNonopt, this`lastNonopt
      ensures argv[..] == Exchanged(old(argv[..]), old(firstNonopt), old(lastNonopt), optind)
      ensures firstNonopt == old(firstNonopt) + (optind - old(lastNonopt)) && lastNonopt == optind
    {
      hide Remaining, Exchanged, Swapped;
      var bottom, middle, top := firstNonopt, lastNonopt, optind;
      ghost var goal := Exchanged(argv[..], bottom, middle, top);
      AtStart(argv[..], bottom, middle, top);
      while top > middle && middle > bottom
        invariant 0 <= bottom <= middle <= top <= argv.Length
        invariant Remaining(argv[..], goal, bottom, middle, top)
        modifies argv
        decreases top - bottom
      {
        ghost var was := argv[..];
        if top - middle > middle - bottom {
          var len := middle - bottom;
          SwapSegments(argv, bottom, top - len, len);
          BottomStep(was, argv[..], goal, bottom, middle, top);
          top := top - len;
        } else {
          var len := top - middle;
          SwapSegments(argv, bottom, middle, len);
          TopStep(was, argv[..], goal, bottom, middle, top);
          bottom := bottom + len;
        }
      }
      AtEnd(argv[..], goal, bottom, middle, top);
      firstNonopt := firstNonopt + (optind - lastNonopt);
      lastNonopt := optind;
    }

    // ----- The scanner

    function View(): State
      reads this, argv
    {
      State(argv[..], optind, nextchar, firstNonopt, lastNonopt)
    }

    /** A call starts a scan when `optind` is 0 or nothing has been scanned yet. */
    predicate Starts()
      reads this
    {
      optind == 0 || !initialized
    }

    /** A scan can start or go on: `optind` is inside the arguments. */
    predicate Ready()
      reads this, argv
    {
      argv.Length >= 1 && optind <= argv.Length && (Starts() || Sane(cfg, View()))
    }

    /** The state a call works from: a new scan begins at argument 1, or where `optind` says. */
    function Begun(): (s: State)
      reads this, argv
    {
      if Starts() then
        var start := if optind == 0 then 1 else optind;
        State(argv[..], start, "", start, start)
      else View()
    }

    method Initialize()
      requires Permutes(cfg.short)
      modifies this`nextchar, this`firstNonopt, this`lastNonopt
      ensures firstNonopt == lastNonopt == optind && nextchar == ""
    {
      firstNonopt, lastNonopt := optind, optind;
      nextchar := "";
    }

    /** Bring the operands skipped so far behind the options read after them, and skip more. */
    method Permute()
      requires Sane(cfg, View()) && nextchar == ""
      modifies argv, this`optind, this`firstNonopt, this`lastNonopt
      ensures Sane(cfg, View()) && Meaning(cfg, View()) == Meaning(cfg, old(View()))
      ensures argv[0] == old(argv[0]) && optind >= old(optind)
      ensures lastNonopt == optind && (optind < argv.Length ==> !IsOperand(argv[optind]))
    {
      hide Scan, Resume, Exchanged, Meaning;
      ghost var p, first := Meaning(cfg, View()), argv[0];
      NormalMeans(cfg, View());
      if lastNonopt > optind {
        lastNonopt := optind;
      }
      if firstNonopt > optind {
        firstNonopt := optind;
      }
      ghost var s := View();
      if firstNonopt != lastNonopt && lastNonopt != optind {
        ExchangeMeans(cfg, s);
        Exchange();
      } else if lastNonopt != optind {
        NothingSkipped(cfg, s, optind);
        firstNonopt := optind;
      }
      assert argv[0] == first && State(argv[..], optind, "", firstNonopt, optind) == View().(last := optind);
      while optind < argv.Length && IsOperand(argv[optind])
        invariant old(optind) <= optind <= argv.Length && argv[0] == first
        invariant Sane(cfg, State(argv[..], optind, "", firstNonopt, optind))
        invariant Meaning(cfg, State(argv[..], optind, "", firstNonopt, optind)) == p
        modifies this`optind
      {
        SkipMeans(cfg, State(argv[..], optind, "", firstNonopt, optind));
        optind := optind + 1;
      }
      lastNonopt := optind;
    }

    /** `--`: it joins the options, and everything after it is an operand. */
    method Terminate()
      requires Sane(cfg, View()) && nextchar == ""
      requires lastNonopt == optind < argv.Length && IsTerminator(argv[optind])
      modifies argv, this`optind, this`firstNonopt, this`lastNonopt
      ensures argv[0] == old(argv[0]) && 1 <= firstNonopt <= lastNonopt == optind == argv.Length
      ensures var p := Meaning(cfg, old(View()));
              p.events == [] && argv[1..] == p.options + p.operands && firstNonopt == 1 + |p.options|
    {
      hide Scan, Resume, Meaning, Exchanged, IsOperand, IsLong, Body;
      ghost var s := View();
      ghost var p := Meaning(cfg, s);
      TerminatorMeans(cfg, s);
      TerminatorMoved(s.args, s.first, s.last);
      optind := optind + 1;
      if firstNonopt != lastNonopt && lastNonopt != optind {
        Exchange();
      } else if firstNonopt == lastNonopt {
        firstNonopt := optind;
      }
      ghost var args := argv[..];
      assert |p.options| == s.first;
      assert args[1..firstNonopt] == p.options && args[firstNonopt..] == p.operands;
      Rejoin(args, firstNonopt);
      lastNonopt := argv.Length;
      optind := argv.Length;
      assert argv[..] == args;
    }

    /** Go to the next option element; `done` when there is none. */
    method Advance() returns (done: bool)
      requires Sane(cfg, View()) && nextchar == ""
      modifies argv, this`optind, this`nextchar, this`firstNonopt, this`lastNonopt
      ensures argv[0] == old(argv[0]) && Sane(cfg, View())
      ensures !done ==> nextchar != "" && lastNonopt == optind >= old(optind)
      ensures !done ==> Meaning(cfg, View()) == Meaning(cfg, old(View()))
      ensures done ==>
                var p := Meaning(cfg, old(View()));
                && p.events == [] && argv[1..] == p.options + p.operands && optind == 1 + |p.options|
                && nextchar == ""
    {
      hide Scan, Resume, Meaning, Exchanged;
      Permute();
      ghost var s := View();
      if optind != argv.Length && IsTerminator(argv[optind]) {
        Terminate();
      } else if optind == argv.Length {
        EndMeans(cfg, s);
      }
      if optind == argv.Length {
        if firstNonopt != lastNonopt {
          optind := firstNonopt;
        }
        return true;
      }
      StartMeans(cfg, s);
      nextchar := Body(cfg, argv[optind]);
      return false;
    }

    /** The search for a long option, exact or abbreviated. */
    method FindLong(key: string) returns (r: LongMatch)
      requires cfg.long.Some?
      ensures r == Lookup(cfg.long.value, key)
    {
      var opts := cfg.long.value;
      var found: Option<nat>, ambiguous := None, false;
      var i := 0;
      while i < |opts|
        invariant 0 <= i <= |opts|
        invariant found.Some? ==> found.value < |opts|
        invariant Lookup(opts, key) == LookupFrom(opts, key, i, found, ambiguous)
      {
        if Abbreviates(key, opts[i]) {
          if |key| == |opts[i].name| {
            return Match(i);
          } else if found.None? {
            found := Some(i);
          } else if !Agree(opts[found.value], opts[i]) {
            ambiguous := true;
          }
        }
        i := i + 1;
      }
      return if ambiguous then Ambiguous else if found.Some? then Match(found.value) else NotFound;
    }

    /** The event a call reports, put together from where the source leaves its parts. */
    function Reported(result: int, opt: bool, index: Option<nat>): Event
      reads this
    {
      Event(result, optarg, if opt then Some(optopt) else None, index)
    }

    /** An element that is a long option. */
    method LongCall() returns (result: int, opt: bool, index: Option<nat>)
      requires Sane(cfg, View()) && nextchar != "" && IsLong(cfg, argv[optind]) && optarg == None
      modifies this`optind, this`nextchar, this`optarg, this`optopt
      ensures Sane(cfg, View()) && nextchar == "" && optind > old(optind)
      ensures var e := ReadOption(cfg, old(argv[optind..]), old(nextchar));
              e == Element([Reported(result, opt, index)], optind - old(optind))
      ensures !opt ==> optopt == old(optopt)
    {
      hide Scan, Resume;
      ghost var rest := argv[optind..];
      var opts := cfg.long.value;
      var nameend := 0;
      while nameend < |nextchar| && nextchar[nameend] != '='
        invariant 0 <= nameend <= |nextchar|
        invariant Find(nextchar, '=', 0) == Find(nextchar, '=', nameend)
      {
        nameend := nameend + 1;
      }
      var r := FindLong(nextchar[..nameend]);
      LookupInRange(opts, nextchar[..nameend]);
      match r
      case Ambiguous =>
        nextchar, optind, optopt := "", optind + 1, 0;
        return QUESTION, true, None;
      case NotFound =>
        nextchar, optind, optopt := "", optind + 1, 0;
        return QUESTION, true, None;
      case Match(k) =>
        var p := opts[k];
        optind := optind + 1;
        if nameend < |nextchar| {
          if !p.hasArg.NoArgument? {
            optarg := Some(nextchar[nameend + 1..]);
          } else {
            nextchar, optopt := "", p.val;
            return QUESTION, true, None;
          }
        } else if p.hasArg.RequiredArgument? {
          if optind < argv.Length {
            optarg := Some(argv[optind]);
            optind := optind + 1;
          } else {
            nextchar, optopt := "", p.val;
            return MissingResult(cfg), true, None;
          }
        }
        nextchar := "";
        return if p.flag != 0 then 0 else p.val, false, Some(k);
    }

    /** The next character of a cluster of short options. */
    method ShortCall() returns (result: int, opt: bool)
      requires Permutes(cfg.short)
      requires Sane(cfg, View()) && nextchar != "" && !IsLong(cfg, argv[optind]) && optarg == None
      modifies this`optind, this`nextchar, this`optarg, this`optopt
      ensures Sane(cfg, View()) && Advances(old(View()), View())
      ensures Meaning(cfg, old(View())) ==
              var p := Meaning(cfg, View()); p.(events := [Reported(result, opt, None)] + p.events)
      ensures !opt ==> optopt == old(optopt)
    {
      hide Scan, Resume, Meaning;
      ghost var s, rest := View(), argv[optind..];
      ConsumeMeans(cfg, s);
      var c, more := nextchar[0], nextchar[1..];
      nextchar := more;
      var kind := KindOf(cfg.short, c);
      if more == "" {
        optind := optind + 1;
      }
      if kind.Unknown? {
        optopt := CharValue(c);
        BeforeNothing(Event(QUESTION, None, Some(CharValue(c)), None), cfg, rest);
        if more != "" {
          ClusterMeans(cfg, s, Event(QUESTION, None, Some(CharValue(c)), None));
        }
        return QUESTION, true;
      }
      if kind.Optional? {
        if more != "" {
          optarg := Some(more);
          optind := optind + 1;
        }
        nextchar := "";
      } else if kind.Required? {
        nextchar := "";
        if more != "" {
          optarg := Some(more);
          optind := optind + 1;
        } else if optind == argv.Length {
          optopt := CharValue(c);
          return MissingResult(cfg), true;
        } else {
          assert rest[1] == argv[optind];
          optarg := Some(argv[optind]);
          optind := optind + 1;
        }
      } else {
        BeforeNothing(Event(CharValue(c), None, None, None), cfg, rest);
        if more != "" {
          ClusterMeans(cfg, s, Event(CharValue(c), None, None, None));
        }
      }
      return CharValue(c), false;
    }

    /** The next event of the option element the scan is in. */
    method ElementCall() returns (result: int, opt: bool, index: Option<nat>)
      requires Permutes(cfg.short)
      requires Sane(cfg, View()) && nextchar != "" && optarg == None
      modifies this`optind, this`nextchar, this`optarg, this`optopt
      ensures Sane(cfg, View()) && Advances(old(View()), View())
      ensures Meaning(cfg, old(View())) ==
              var p := Meaning(cfg, View()); p.(events := [Reported(result, opt, index)] + p.events)
      ensures !opt ==> optopt == old(optopt)
    {
      hide Scan, Resume, Meaning, ReadOption;
      if IsLong(cfg, argv[optind]) {
        ConsumeMeans(cfg, View());
        result, opt, index := LongCall();
      } else {
        result, opt := ShortCall();
        index := None;
      }
    }

    /** One call: the next event of what the command line means, or -1 with the arguments
        permuted and `optind` at the first operand. */
    method Next() returns (result: int, index: Option<nat>)
      requires Permutes(cfg.short)
      requires argv.Length >= 1 ==> Ready()
      modifies this, argv
      ensures argv.Length == 0 ==> result == -1 && View() == old(View())
      ensures argv.Length >= 1 ==> initialized && argv[0] == old(argv[0])
      ensures argv.Length >= 1 ==>
                var p := Meaning(cfg, old(Begun()));
                if p.events == [] then
                  result == -1 && argv[1..] == p.options + p.operands && optind == 1 + |p.options|
                else
                  && 1 <= firstNonopt <= lastNonopt <= optind && Sane(cfg, View())
                  && Meaning(cfg, View()) == p.(events := p.events[1..])
                  && Advances(old(Begun()), View())
                  && p.events[0] == Reported(result, p.events[0].opt.Some?, index)
                  && (p.events[0].opt.None? ==> optopt == old(optopt))
    {
      hide Scan, Resume, Meaning, ReadOption, Permutes;
      index := None;
      if argv.Length < 1 {
        return -1, None;
      }
      optarg := None;
      if Starts() {
        if optind == 0 {
          optind := 1;
        }
        Initialize();
        initialized := true;
      }
      ghost var p := Meaning(cfg, View());
      if nextchar == "" {
        var done := Advance();
        if done {
          return -1, None;
        }
      }
      var opt: bool;
      result, opt, index := ElementCall();
      assert p.events[1..] == Meaning(cfg, View()).events;
    }

    /** The loop around `getopt` in a command: scan from the beginning until a call returns -1. That is
        the end, or a long option that was given this value, which a command cannot tell apart. */
    method ScanAll() returns (events: seq<Report>)
      requires Permutes(cfg.short)
      modifies this, argv
      ensures argv.Length == 0 ==> events == []
      ensures argv.Length >= 1 ==>
                var p := Scan(cfg, old(argv[1..]));
                && events <= Reports(p.events) && (forall k :: 0 <= k < |events| ==> events[k].result != -1)
                && (if |events| == |p.events| then
                      argv[..] == old(argv[..1]) + p.options + p.operands && optind == 1 + |p.options|
                    else p.events[|events|].result == -1)
    {
      hide Scan, Resume, Meaning, Reports;
      optind := 0;
      events := [];
      if argv.Length == 0 {
        var _, _ := Next();
        return;
      }
      ghost var p := Scan(cfg, argv[1..]);
      StartOfScan(cfg, argv[..]);
      ghost var left := p.events;
      while true
        invariant Ready()
        invariant Meaning(cfg, Begun()) == p.(events := left) && left == p.events[|p.events| - |left|..]
        invariant Reports(p.events) == events + Reports(left)
        invariant forall k :: 0 <= k < |events| ==> events[k].result != -1
        invariant argv[0] == old(argv[0])
        decreases |left|
      {
        if left != [] {
          ReportsNext(p.events, events, left);
        }
        var result, index := Next();
        if result == -1 {
          break;
        }
        events := events + [Report(result, optarg, index)];
        left := left[1..];
      }
      assert argv[..] == [argv[0]] + argv[1..];
    }

    /** A command that parses its line twice, as `egg` does, sees the same options, arguments and
        operands again and finds nothing to move, unless the line ended with an option short of
        its argument and there are operands. No option it declares may report -1. */
    method ScanTwice() returns (first: seq<Report>, second: seq<Report>)
      requires Permutes(cfg.short)
      modifies this, argv
      ensures argv.Length >= 1 ==>
                var p := Scan(cfg, old(argv[1..]));
                NoneEnds(p.events) ==>
                  && first == Reports(p.events)
                  && (!(EndsStarved(cfg, old(argv[1..])) && p.operands != []) ==>
                        && second == first
                        && argv[..] == old(argv[..1]) + p.options + p.operands
                        && optind == 1 + |p.options|)
    {
      hide Scan, EndsStarved, Reports, NoneEnds;
      ghost var args := if argv.Length >= 1 then argv[1..] else [];
      ghost var p := Scan(cfg, args);
      first := ScanAll();
      RescanSame(cfg, args);
      if argv.Length >= 1 && NoneEnds(p.events) {
        WholeReport(p.events, first);
        assert argv[1..] == p.options + p.operands;
      }
      second := ScanAll();
      if argv.Length >= 1 && NoneEnds(p.events) && second <= Reports(p.events) {
        WholeReport(p.events, second);
      }
    }
  }
}
