/**
 * Checking candidate programs against the job's cases (cold/cold.py: `Interpreter.__init__`,
 * `State.find_labels` and `Context.run`).
 *
 * Every constraint `p => v` of the job is a case: the program is run with input `p1 = p`
 * and must return `v`. A source is searched against the first case; every program text that
 * passes it is searched against the second case, and so on; a text that passes the last case
 * is a solution. The search of the last case stops at its first program (the `break`).
 */
module ColdContext {
  import opened Wrappers
  import opened Text
  import opened Instructions
  import opened ColdVm
  import opened ColdSearch
  import ColdJob

  /** `Case(arg, expected)`. */
  datatype Case = Case(arg: int, expected: Option<int>)

  // ------------------------------------------------------------ the root

  /** The stripped non-empty lines of a source, in order. */
  function NonBlank(pieces: seq<string>): (r: seq<string>)
    ensures forall k :: 0 <= k < |r| ==> r[k] != ""
    decreases |pieces|
  {
    if |pieces| == 0 then []
    else (if Strip(pieces[0]) == "" then [] else [Strip(pieces[0])]) + NonBlank(pieces[1..])
  }

  function ParseAll(ls: seq<string>): (r: seq<Instruction>)
    ensures |r| == |ls| && forall k :: 0 <= k < |ls| ==> r[k] == Parse(ls[k])
  {
    seq(|ls|, k requires 0 <= k < |ls| => Parse(ls[k]))
  }

  /** The instructions `Interpreter.__init__` reads from `code`. */
  function RootLines(code: string): seq<Instruction> {
    ParseAll(NonBlank(Split(code, "\n")))
  }

  /** The root state: the case's expected value, input `p1` in the one cell of the store
      (set at line 0), no outputs or locals yet, and the labels of the code. */
  function RootState(c: Case, code: string): State {
    var lines := RootLines(code);
    State(lines, 0, [Binding("p1", 0)], [], [], LabelsOf(lines), c.expected, None, false, -1)
  }

  /** The root state's names are scoped (its one input is `p1`) and its lines parsed. */
  lemma {:induction false} RootScoped(c: Case, code: string)
    ensures ScopedNames(RootState(c, code)) && WordLines(RootState(c, code).lines)
  {
    var lines := RootLines(code);
    assert forall k :: 0 <= k < |lines| ==> lines[k] == Parse(NonBlank(Split(code, "\n"))[k]);
  }

  function RootStore(c: Case): Store {
    [Cell("p1", c.arg, 0)]
  }

  /** `State.find_labels`: the table gains every label of `lines` (the last `name:` line of a
      name wins) and keeps the entries it had for other names. */
  method FindLabels(labels0: map<string, int>, lines: seq<Instruction>) returns (labels: map<string, int>)
    requires forall k :: 0 <= k < |lines| ==> lines[k].code != ""
    ensures labels == labels0 + LabelsOf(lines)
  {
    labels := labels0;
    var i := 0;
    while i < |lines|
      invariant 0 <= i <= |lines|
      invariant labels == labels0 + LabelsOf(lines[..i])
    {
      var code := lines[i].code;
      assert lines[..i + 1][..i] == lines[..i];
      if code[|code| - 1] == ':' {
        labels := labels[code[..|code| - 1] := i + 1];
      }
      i := i + 1;
    }
    assert lines[..|lines|] == lines;
  }

  /** Re-running find_labels after a line is appended: the old table's names are all labels of
      the longer code, so the result is the table of the longer code alone. */
  lemma {:induction false} LabelsGrow(lines: seq<Instruction>, x: Instruction)
    ensures LabelsOf(lines) + LabelsOf(lines + [x]) == LabelsOf(lines + [x])
  {
    var big := lines + [x];
    forall name | name in LabelsOf(lines) ensures name in LabelsOf(big) {
      LabelsOfKeys(lines, name);
      var i :| 0 <= i < |lines| && LabelAt(lines, i, name);
      assert big[i] == lines[i];
      assert LabelAt(big, i, name);
      LabelsOfKeys(big, name);
    }
  }

  /** `Interpreter.__init__`: reads the code line by line, strips every line, skips blank
      ones, and re-scans the labels after each line it appends. */
  method NewInterpreter(c: Case, code: string) returns (st: State, store: Store)
    ensures st == RootState(c, code) && store == RootStore(c)
  {
    store := [Cell("p1", c.arg, 0)];
    var lines: seq<Instruction> := [];
    var labels: map<string, int> := map[];
    var pieces := Split(code, "\n");
    ghost var texts: seq<string> := [];
    var i := 0;
    while i < |pieces|
      invariant 0 <= i <= |pieces|
      invariant texts + NonBlank(pieces[i..]) == NonBlank(pieces)
      invariant lines == ParseAll(texts)
      invariant labels == LabelsOf(lines)
      invariant forall k :: 0 <= k < |lines| ==> lines[k].code != ""
    {
      NonBlankNext(pieces, i, texts);
      var line := Strip(pieces[i]);
      if line != "" {
        LabelsGrow(lines, Parse(line));
        ParseAllSnoc(texts, line);
        texts := texts + [line];
        lines := lines + [Parse(line)];
        labels := FindLabels(labels, lines);
      }
      i := i + 1;
    }
    assert texts == NonBlank(pieces) by {
      assert pieces[|pieces|..] == [];
      assert texts + [] == texts;
    }
    st := State(lines, 0, [Binding("p1", 0)], [], [], labels, c.expected, None, false, -1);
  }

  /** One piece more of the loop of `Interpreter.__init__`: a blank piece is skipped, any
      other is appended stripped. */
  lemma {:induction false} NonBlankNext(pieces: seq<string>, i: nat, texts: seq<string>)
    requires i < |pieces| && texts + NonBlank(pieces[i..]) == NonBlank(pieces)
    ensures var line := Strip(pieces[i]);
      && (line == "" ==> texts + NonBlank(pieces[i + 1..]) == NonBlank(pieces))
      && (line != "" ==> (texts + [line]) + NonBlank(pieces[i + 1..]) == NonBlank(pieces))
  {
    var line := Strip(pieces[i]);
    var rest := NonBlank(pieces[i + 1..]);
    NonBlankAt(pieces, i);
    if line == "" {
      assert [] + rest == rest;
    } else {
      assert (texts + [line]) + rest == texts + ([line] + rest);
    }
  }

  lemma {:induction false} NonBlankAt(pieces: seq<string>, i: nat)
    requires i < |pieces|
    ensures NonBlank(pieces[i..])
         == (if Strip(pieces[i]) == "" then [] else [Strip(pieces[i])]) + NonBlank(pieces[i + 1..])
  {
    assert pieces[i..][1..] == pieces[i + 1..];
    assert pieces[i..][0] == pieces[i];
  }

  lemma {:induction false} ParseAllSnoc(ls: seq<string>, line: string)
    ensures ParseAll(ls + [line]) == ParseAll(ls) + [Parse(line)]
  {
  }

  /** A text whose lines are stripped and non-empty comes back unchanged from `all_code` on
      the root state built from it, so a later case runs the very lines an earlier case
      produced. */
  lemma {:induction false} RootAllCode(c: Case, ls: seq<string>)
    requires |ls| >= 1
    requires forall k :: 0 <= k < |ls| ==> ls[k] != "" && Strip(ls[k]) == ls[k] && Avoids(ls[k], '\n')
    ensures AllCode(RootState(c, Join(ls, "\n")).lines) == Join(ls, "\n")
  {
    RootLinesOf(ls);
    CodesParseAll(ls);
    AllCodeJoins(ParseAll(ls));
  }

  lemma {:induction false} RootLinesOf(ls: seq<string>)
    requires |ls| >= 1
    requires forall k :: 0 <= k < |ls| ==> ls[k] != "" && Strip(ls[k]) == ls[k] && Avoids(ls[k], '\n')
    ensures RootLines(Join(ls, "\n")) == ParseAll(ls)
  {
    SplitJoinChar(ls, '\n');
    NonBlankKeeps(ls);
  }

  lemma {:induction false} CodesParseAll(ls: seq<string>)
    ensures Codes(ParseAll(ls)) == ls
  {
  }

  lemma {:induction false} NonBlankKeeps(ls: seq<string>)
    requires forall k :: 0 <= k < |ls| ==> ls[k] != "" && Strip(ls[k]) == ls[k]
    ensures NonBlank(ls) == ls
    decreases |ls|
  {
    if |ls| > 0 {
      NonBlankKeeps(ls[1..]);
      assert [ls[0]] + ls[1..] == ls;
    }
  }

  /** Lines the interpreter reads are stripped and non-empty. */
  lemma {:induction false} NonBlankStripped(pieces: seq<string>)
    ensures forall k :: 0 <= k < |NonBlank(pieces)| ==> Strip(NonBlank(pieces)[k]) == NonBlank(pieces)[k]
    decreases |pieces|
  {
    if |pieces| > 0 {
      NonBlankStripped(pieces[1..]);
      StripIdempotent(pieces[0]);
      var head := if Strip(pieces[0]) == "" then [] else [Strip(pieces[0])];
      assert NonBlank(pieces) == head + NonBlank(pieces[1..]);
      forall k | 0 <= k < |NonBlank(pieces)|
        ensures Strip(NonBlank(pieces)[k]) == NonBlank(pieces)[k]
      {
        if k >= |head| {
          assert NonBlank(pieces)[k] == NonBlank(pieces[1..])[k - |head|];
        }
      }
    }
  }

  lemma {:induction false} StripIdempotent(s: string)
    ensures Strip(Strip(s)) == Strip(s)
  {
    StripShape(s);
    var t := Strip(s);
    StripPadded("", t, "");
    assert "" + t + "" == t;
  }

  lemma {:induction false} StripShape(s: string)
    ensures |Strip(s)| == 0 || (!IsSpace(Strip(s)[0]) && !IsSpace(Strip(s)[|Strip(s)| - 1]))
  {
    LStripShape(s);
    RStripShape(LStrip(s));
  }

  lemma {:induction false} LStripShape(s: string)
    ensures |LStrip(s)| == 0 || !IsSpace(LStrip(s)[0])
    decreases |s|
  {
    if |s| > 0 && IsSpace(s[0]) {
      LStripShape(s[1..]);
    }
  }

  /** Stripping on the right keeps a first character that was not white. */
  lemma {:induction false} RStripShape(s: string)
    requires |s| == 0 || !IsSpace(s[0])
    ensures |RStrip(s)| == 0 || (!IsSpace(RStrip(s)[0]) && !IsSpace(RStrip(s)[|RStrip(s)| - 1]))
    decreases |s|
  {
    if |s| > 0 && IsSpace(s[|s| - 1]) {
      RStripShape(s[..|s| - 1]);
    }
  }

  // --------------------------------------------------------- the cases

  /** How checking a source against the cases ends: the texts it yields and the counter
      increments, or the exception that escapes, or out of fuel. */
  datatype Run = Ran(texts: seq<string>, stats: Stats) | RunCrash | RunOutOfFuel

  /** The search of one interpreter: cases[k] on `src`, stopping at the first program when
      `stop` is set. */
  function Passed(cfg: Config, c: Case, src: string, fuel: nat, stop: bool): Search {
    StateIncrement(cfg, RootState(c, src), RootStore(c), fuel, stop)
  }

  /** The search of one interpreter as a function of its case, its source and `stop`. The
      chaining below is stated over any such function and run with `Searches(cfg, fuel)`. */
  type Searcher = search: (Case, string, bool) -> Search | Counted(search)
    witness (c: Case, src: string, stop: bool) => OutOfFuel

  /** A search yields at most one program per counted run, and at most one when stopping. */
  ghost predicate Counted(search: (Case, string, bool) -> Search) {
    forall c, src, stop :: CountedOne(search(c, src, stop), stop)
  }

  predicate CountedOne(s: Search, stop: bool) {
    s.Found? ==> |s.texts| <= s.stats.runs && (stop ==> |s.texts| <= 1)
  }

  function Searches(cfg: Config, fuel: nat): Searcher {
    (c, src, stop) => Passed(cfg, c, src, fuel, stop)
  }

  /** `interpret(cases, k, source)`: one interpreter for case k (its root state is one more
      generated state); the last case yields at most its first program, an earlier case
      hands every program it passes to the next case. */
  function Interpret(search: Searcher, cases: seq<Case>, k: nat, src: string): (r: Run)
    requires k < |cases|
    ensures r.Ran? ==> |r.texts| <= r.stats.runs
    ensures r.Ran? && k == |cases| - 1 ==> |r.texts| <= 1
    decreases |cases| - k, 0, 0
  {
    var final := k == |cases| - 1;
    match search(cases[k], src, final)
    case SearchCrash => RunCrash
    case OutOfFuel => RunOutOfFuel
    case Found(passed, _, stats) =>
      var own := stats.(states := stats.states + 1);
      if final then Ran(passed, own)
      else
        match Chain(search, cases, k + 1, passed)
        case Ran(texts, more) => Ran(texts, AddStats(own, more))
        case other => other
  }

  /** The `for passed in ...` loop of `interpret`: each passed program against case k. */
  function Chain(search: Searcher, cases: seq<Case>, k: nat, srcs: seq<string>): (r: Run)
    requires k < |cases|
    ensures r.Ran? ==> |r.texts| <= r.stats.runs
    decreases |cases| - k, 1, |srcs|
  {
    if |srcs| == 0 then Ran([], NoStats)
    else
      match Interpret(search, cases, k, srcs[0])
      case Ran(t1, s1) =>
        (match Chain(search, cases, k, srcs[1..])
         case Ran(t2, s2) => Ran(t1 + t2, AddStats(s1, s2))
         case other => other)
      case other => other
  }

  /** `t` is reached from `src` through cases k.. in order: each case's search passes a
      program, the next case starts from it, and the last case's search yields `t`. */
  ghost predicate Reaches(search: Searcher, cases: seq<Case>, k: nat, src: string, t: string)
    requires k < |cases|
    decreases |cases| - k
  {
    var s := search(cases[k], src, k == |cases| - 1);
    && s.Found?
    && if k == |cases| - 1 then t in s.texts
       else exists mid :: mid in s.texts && Reaches(search, cases, k + 1, mid, t)
  }

  /** A source yields exactly the texts it reaches through all remaining cases. */
  lemma {:induction false} InterpretReaches(search: Searcher, cases: seq<Case>, k: nat, src: string, t: string)
    requires k < |cases| && Interpret(search, cases, k, src).Ran?
    ensures t in Interpret(search, cases, k, src).texts <==> Reaches(search, cases, k, src, t)
    decreases |cases| - k, 0, 0
  {
    var s := search(cases[k], src, k == |cases| - 1);
    if k < |cases| - 1 {
      ChainReaches(search, cases, k + 1, s.texts, t);
    }
  }

  lemma {:induction false} ChainReaches(search: Searcher, cases: seq<Case>, k: nat, srcs: seq<string>, t: string)
    requires k < |cases| && Chain(search, cases, k, srcs).Ran?
    ensures t in Chain(search, cases, k, srcs).texts
        <==> exists mid :: mid in srcs && Reaches(search, cases, k, mid, t)
    decreases |cases| - k, 1, |srcs|
  {
    if |srcs| > 0 {
      InterpretReaches(search, cases, k, srcs[0], t);
      ChainReaches(search, cases, k, srcs[1..], t);
      forall mid | mid in srcs ensures mid == srcs[0] || mid in srcs[1..] {
        var j :| 0 <= j < |srcs| && srcs[j] == mid;
        if j > 0 {
          assert srcs[1..][j - 1] == mid;
        }
      }
    }
  }

  /** `job.constraints.items()` as cases, in insertion order. */
  function Cases(constraints: seq<(int, int)>): (r: seq<Case>)
    ensures |r| == |constraints|
    ensures forall k :: 0 <= k < |r| ==> r[k] == Case(constraints[k].0, Some(constraints[k].1))
  {
    seq(|constraints|, k requires 0 <= k < |constraints| => Case(constraints[k].0, Some(constraints[k].1)))
  }

  /** The `for program_source in program_sources` loop of `Context.run`. Without cases the
      first source raises IndexError. */
  function RunSources(search: Searcher, cases: seq<Case>, sources: seq<string>): (r: Run)
    ensures r.Ran? ==> |r.texts| <= r.stats.runs
    ensures r.Ran? && |cases| == 1 ==> |r.texts| <= |sources|
    decreases |sources|
  {
    if |sources| == 0 then Ran([], NoStats)
    else if |cases| == 0 then RunCrash
    else
      match Interpret(search, cases, 0, sources[0])
      case Ran(t1, s1) =>
        (match RunSources(search, cases, sources[1..])
         case Ran(t2, s2) => Ran(t1 + t2, AddStats(s1, s2))
         case other => other)
      case other => other
  }

  /** The solutions are exactly the texts some source reaches through every case. */
  lemma {:induction false} RunSourcesReaches(search: Searcher, cases: seq<Case>, sources: seq<string>, t: string)
    requires RunSources(search, cases, sources).Ran? && |cases| > 0
    ensures t in RunSources(search, cases, sources).texts
        <==> exists src :: src in sources && Reaches(search, cases, 0, src, t)
    decreases |sources|
  {
    if |sources| > 0 {
      InterpretReaches(search, cases, 0, sources[0], t);
      RunSourcesReaches(search, cases, sources[1..], t);
      forall src | src in sources ensures src == sources[0] || src in sources[1..] {
        var j :| 0 <= j < |sources| && sources[j] == src;
        if j > 0 {
          assert sources[1..][j - 1] == src;
        }
      }
    }
  }

  function JobConfig(job: ColdJob.Job): Config {
    Config(job.constants, job.varShadow)
  }

  /** `Context`: the job, the four counters and the solutions found so far. */
  class Context {
    const job: ColdJob.Job
    var statStates: nat
    var statRuns: nat
    var statFailed: nat
    var statUnfinished: nat
    var solutions: seq<string>

    constructor (job: ColdJob.Job)
      ensures this.job == job
      ensures statStates == 0 && statRuns == 0 && statFailed == 0 && statUnfinished == 0
      ensures solutions == []
    {
      this.job := job;
      statStates := 0;
      statRuns := 0;
      statFailed := 0;
      statUnfinished := 0;
      solutions := [];
    }

    /** The solutions and the four counters, as one value. */
    ghost function Tally(): Run
      reads this
    {
      Ran(solutions, Stats(statStates, statRuns, statFailed, statUnfinished))
    }

    /** Counts added, the solutions left alone. */
    method Count(s: Stats)
      modifies this
      ensures Tally() == Glue(old(Tally()), Ran([], s))
    {
      statStates := statStates + s.states;
      statRuns := statRuns + s.runs;
      statFailed := statFailed + s.failed;
      statUnfinished := statUnfinished + s.unfinished;
      assert solutions + [] == solutions;
    }

    /** One source's solutions appended and its counts added. */
    method Absorb(one: Run)
      requires one.Ran?
      modifies this
      ensures Tally() == Glue(old(Tally()), one)
    {
      solutions := solutions + one.texts;
      statStates := statStates + one.stats.states;
      statRuns := statRuns + one.stats.runs;
      statFailed := statFailed + one.stats.failed;
      statUnfinished := statUnfinished + one.stats.unfinished;
    }

    /** `Context.run(program_sources)`, run to the end: every solution is appended, and the
        counters grow by what the searches counted. When a source raises, the method stops
        there with what the earlier sources added. */
    method Run(sources: seq<string>, fuel: nat) returns (r: Run)
      modifies this
      ensures r == RunSources(Searches(JobConfig(job), fuel), Cases(job.constraints), sources)
      ensures r.Ran? ==> Tally() == Glue(old(Tally()), r)
    {
      r := RunWith(Searches(JobConfig(job), fuel), Cases(job.constraints), sources);
    }

    /** The loop of `Context.run` with the cases and the search of one interpreter given. */
    method RunWith(search: Searcher, cases: seq<Case>, sources: seq<string>) returns (r: Run)
      modifies this
      ensures r == RunSources(search, cases, sources)
      ensures r.Ran? ==> Tally() == Glue(old(Tally()), r)
    {
      var i := 0;
      var done := Ran([], NoStats);
      ghost var t0 := Tally();
      GlueUnit(t0);
      while i < |sources|
        invariant 0 <= i <= |sources|
        invariant done.Ran?
        invariant RunSources(search, cases, sources) == Glue(done, RunSources(search, cases, sources[i..]))
        invariant Tally() == Glue(t0, done)
      {
        if |cases| == 0 {
          RunSourcesEmpty(search, sources[i..]);
          return RunCrash;
        }
        var one := Interpret(search, cases, 0, sources[i]);
        RunSourcesNext(search, cases, sources, i, done);
        if !one.Ran? {
          return one;
        }
        Absorb(one);
        GlueRan(t0, done, one);
        done := Glue(done, one);
        i := i + 1;
      }
      GlueDone(done, search, cases, sources);
      r := done;
    }
  }

  /** One pass of the loop of `Context.run`: the next source either raises, and that is the
      outcome, or its results are glued onto what came before. */
  lemma {:induction false} RunSourcesNext(search: Searcher, cases: seq<Case>, sources: seq<string>, i: nat, done: Run)
    requires |cases| > 0 && i < |sources| && done.Ran?
    requires RunSources(search, cases, sources) == Glue(done, RunSources(search, cases, sources[i..]))
    ensures var one := Interpret(search, cases, 0, sources[i]);
      && (!one.Ran? ==> RunSources(search, cases, sources) == one)
      && (one.Ran? ==> RunSources(search, cases, sources)
                       == Glue(Glue(done, one), RunSources(search, cases, sources[i + 1..])))
  {
    var one := Interpret(search, cases, 0, sources[i]);
    RunSourcesStep(search, cases, sources, i);
    if one.Ran? {
      GlueAssoc(done, one, RunSources(search, cases, sources[i + 1..]));
    } else {
      GlueAbort(done, one, RunSources(search, cases, sources[i + 1..]));
    }
  }

  lemma {:induction false} RunSourcesStep(search: Searcher, cases: seq<Case>, sources: seq<string>, i: nat)
    requires |cases| > 0 && i < |sources|
    ensures RunSources(search, cases, sources[i..])
         == Glue(Interpret(search, cases, 0, sources[i]), RunSources(search, cases, sources[i + 1..]))
  {
    assert sources[i..][0] == sources[i];
    assert sources[i..][1..] == sources[i + 1..];
  }

  lemma {:induction false} GlueDone(done: Run, search: Searcher, cases: seq<Case>, sources: seq<string>)
    requires done.Ran?
    requires RunSources(search, cases, sources) == Glue(done, RunSources(search, cases, sources[|sources|..]))
    ensures RunSources(search, cases, sources) == done
  {
    assert sources[|sources|..] == [];
    assert done.texts + [] == done.texts;
  }

  lemma {:induction false} RunSourcesEmpty(search: Searcher, sources: seq<string>)
    requires |sources| > 0
    ensures RunSources(search, [], sources) == RunCrash
  {
  }

  /** The results of two stretches of work one after the other. */
  function Glue(a: Run, b: Run): Run {
    match a
    case Ran(t1, s1) =>
      (match b
       case Ran(t2, s2) => Ran(t1 + t2, AddStats(s1, s2))
       case other => other)
    case other => other
  }

  lemma {:induction false} GlueAssoc(a: Run, b: Run, c: Run)
    requires a.Ran? && b.Ran?
    ensures Glue(a, Glue(b, c)) == Glue(Ran(a.texts + b.texts, AddStats(a.stats, b.stats)), c)
  {
    if c.Ran? {
      assert a.texts + (b.texts + c.texts) == a.texts + b.texts + c.texts;
    }
  }

  lemma {:induction false} GlueUnit(a: Run)
    requires a.Ran?
    ensures Glue(a, Ran([], NoStats)) == a
  {
    assert a.texts + [] == a.texts;
  }

  lemma {:induction false} GlueRan(a: Run, b: Run, c: Run)
    requires a.Ran? && b.Ran? && c.Ran?
    ensures Glue(Glue(a, b), c) == Glue(a, Glue(b, c))
  {
    assert a.texts + b.texts + c.texts == a.texts + (b.texts + c.texts);
  }

  lemma {:induction false} GlueAbort(a: Run, b: Run, c: Run)
    requires a.Ran? && !b.Ran?
    ensures Glue(a, Glue(b, c)) == b
  {
  }
}
