/**
 * The round-based search (cold/cold.py, `Interpreter.run`).
 *
 * Instead of following one candidate to its end before the next, every round moves each
 * running state by one line: the replacer fills the slots of its current line, and every
 * state it hands back executes that line at once. Ended states are carried from round to
 * round; the loop stops when no state is running. Return values are recorded in
 * `last_retval` as they happen; programs returning the expected value are yielded.
 */
module ColdRounds {
  import opened Wrappers
  import opened Text
  import opened Instructions
  import opened ColdVm
  import opened ColdSearch
  import opened ColdContext

  /** Every state still running refers only to cells of the store. */
  predicate RunningWf(states: seq<State>, store: Store) {
    forall k :: 0 <= k < |states| && !states[k].ended ==> Wf(states[k], store)
  }

  /** What a stretch of a round produces: the states for the next round, the store, the
      programs yielded, the counter increments and `last_retval`. */
  datatype Sweep =
    | Swept(states: seq<State>, store: Store, texts: seq<string>, stats: Stats, last: Option<int>)
    | SweepCrash

  /** What one stretch produced, followed by what the next one produces from where it left. */
  function Extend(states: seq<State>, texts: seq<string>, stats: Stats, r: Sweep): Sweep {
    match r
    case SweepCrash => SweepCrash
    case Swept(s, st, t, d, l) => Swept(states + s, st, texts + t, AddStats(stats, d), l)
  }

  /** A state the replacer handed back executes its current line: a return ends it, counts a
      run, records the value and yields the code when the value is the expected one; a failure
      ends it; otherwise its code pointer moves on. */
  function Fire(temp: State, store: Store, last: Option<int>): (r: Sweep)
    requires Wf(temp, store)
    ensures r.Swept? ==> |r.states| == 1 && RunningWf(r.states, r.store) && |r.store| >= |store|
    ensures r.Swept? ==> |r.texts| <= r.stats.runs
  {
    if !AtLine(temp) then SweepCrash
    else
      match Execute(temp, store)
      case Crash => SweepCrash
      case Failed =>
        Swept([temp.(linesExecuted := temp.linesExecuted + 1, ended := true)], store, [], NoStats.(failed := 1), last)
      case Return(st', store') =>
        Swept([st'.(ended := true)], store', if st'.retval == temp.expected then [AllCode(st'.lines)] else [],
              NoStats.(runs := 1), st'.retval)
      case Continue(st', store', jump) =>
        Swept([st'.(codePointer := if jump.Some? then jump.value else st'.codePointer + 1)], store', [], NoStats, last)
  }

  /** The `for temp in temps` loop of one round. */
  function FireAll(temps: seq<State>, store: Store, last: Option<int>): (r: Sweep)
    requires AllWf(temps, store)
    ensures r.Swept? ==> RunningWf(r.states, r.store) && |r.store| >= |store|
    ensures r.Swept? ==> |r.texts| <= r.stats.runs && |r.states| == |temps|
    decreases |temps|
  {
    if |temps| == 0 then Swept([], store, [], NoStats, last)
    else
      match Fire(temps[0], store, last)
      case SweepCrash => SweepCrash
      case Swept(s1, st1, t1, d1, l1) =>
        assert AllWf(temps[1..], st1) by {
          forall k | 0 <= k < |temps[1..]| ensures Wf(temps[1..][k], st1) {
            assert Wf(temps[k + 1], store);
          }
        }
        Extend(s1, t1, d1, FireAll(temps[1..], st1, l1))
  }

  /** One state of a round: an ended state is carried over; otherwise the replacer runs (an
      impossible slot drops the state and counts it unfinished) and its states fire. */
  function SweepState(cfg: Config, st: State, store: Store, last: Option<int>): (r: Sweep)
    requires st.ended || Wf(st, store)
    ensures r.Swept? ==> RunningWf(r.states, r.store) && |r.store| >= |store|
    ensures r.Swept? ==> |r.texts| <= r.stats.runs
  {
    if st.ended then Swept([st], store, [], NoStats, last)
    else if !AtLine(st) then SweepCrash
    else
      match Replacer(cfg, st, store)
      case ReplCrash => SweepCrash
      case ReplImpossible => Swept([], store, [], NoStats.(unfinished := 1), last)
      case Keep => FireAll([st], store, last)
      case Clones(lines) =>
        var clones := ClonesOf(st, lines);
        assert AllWf(clones, store) by {
          forall k | 0 <= k < |clones| ensures Wf(clones[k], store) {
            ClonesDiffer(st, store, lines, k);
          }
        }
        match FireAll(clones, store, last)
        case SweepCrash => SweepCrash
        case Swept(s, st', t, d, l) => Swept(s, st', t, d.(states := d.states + |lines|), l)
  }

  /** One round: every state of the round in turn, on the store the previous ones left. */
  function Round(cfg: Config, states: seq<State>, store: Store, last: Option<int>): (r: Sweep)
    requires RunningWf(states, store)
    ensures r.Swept? ==> RunningWf(r.states, r.store) && |r.store| >= |store|
    ensures r.Swept? ==> |r.texts| <= r.stats.runs
    decreases |states|
  {
    if |states| == 0 then Swept([], store, [], NoStats, last)
    else
      match SweepState(cfg, states[0], store, last)
      case SweepCrash => SweepCrash
      case Swept(s1, st1, t1, d1, l1) =>
        assert RunningWf(states[1..], st1) by {
          forall k | 0 <= k < |states[1..]| && !states[1..][k].ended ensures Wf(states[1..][k], st1) {
            assert Wf(states[k + 1], store);
          }
        }
        Extend(s1, t1, d1, Round(cfg, states[1..], st1, l1))
  }

  /** The number of states still running (the `count_running` loop). */
  function Running(states: seq<State>): (n: nat)
    ensures n == 0 <==> forall k :: 0 <= k < |states| ==> states[k].ended
    ensures n <= |states|
    decreases |states|
  {
    if |states| == 0 then 0
    else
      var init := states[..|states| - 1];
      assert forall k :: 0 <= k < |init| ==> init[k] == states[k];
      Running(init) + (if states[|states| - 1].ended then 0 else 1)
  }

  /** How the whole run ends: the programs yielded, the store, the counter increments and
      `last_retval`; or a raised exception; or the round bound reached. */
  datatype Finish =
    | Halted(texts: seq<string>, store: Store, stats: Stats, last: Option<int>)
    | RoundsCrash
    | RoundsOutOfFuel

  /** What the rounds before produced, followed by how the rest of the run ends. */
  function Prefix(texts: seq<string>, stats: Stats, r: Finish): Finish {
    match r
    case Halted(t, s, d, l) => Halted(texts + t, s, AddStats(stats, d), l)
    case other => other
  }

  /** `Interpreter.run`, with at most `fuel` rounds. */
  function Rounds(cfg: Config, states: seq<State>, store: Store, last: Option<int>, fuel: nat): (r: Finish)
    requires RunningWf(states, store)
    ensures r.Halted? ==> |r.texts| <= r.stats.runs && |r.store| >= |store|
    decreases fuel
  {
    if Running(states) == 0 then Halted([], store, NoStats, last)
    else if fuel == 0 then RoundsOutOfFuel
    else
      match Round(cfg, states, store, last)
      case SweepCrash => RoundsCrash
      case Swept(s, st, t, d, l) => Prefix(t, d, Rounds(cfg, s, st, l, fuel - 1))
  }

  // ------------------------------------------------------------ gluing

  lemma {:induction false} ExtendAssoc(s1: seq<State>, t1: seq<string>, d1: Stats, s2: seq<State>, t2: seq<string>, d2: Stats, r: Sweep)
    ensures Extend(s1, t1, d1, Extend(s2, t2, d2, r)) == Extend(s1 + s2, t1 + t2, AddStats(d1, d2), r)
  {
    if r.Swept? {
      assert s1 + (s2 + r.states) == s1 + s2 + r.states;
      assert t1 + (t2 + r.texts) == t1 + t2 + r.texts;
    }
  }

  lemma {:induction false} ExtendLeftUnit(r: Sweep)
    ensures Extend([], [], NoStats, r) == r
  {
    if r.Swept? {
      assert [] + r.states == r.states;
      assert [] + r.texts == r.texts;
    }
  }

  lemma {:induction false} ExtendUnit(s: seq<State>, t: seq<string>, d: Stats, store: Store, last: Option<int>)
    ensures Extend(s, t, d, Swept([], store, [], NoStats, last)) == Swept(s, store, t, d, last)
  {
    assert s + [] == s;
    assert t + [] == t;
  }

  lemma {:induction false} PrefixAssoc(t1: seq<string>, d1: Stats, t2: seq<string>, d2: Stats, r: Finish)
    ensures Prefix(t1, d1, Prefix(t2, d2, r)) == Prefix(t1 + t2, AddStats(d1, d2), r)
  {
    if r.Halted? {
      assert t1 + (t2 + r.texts) == t1 + t2 + r.texts;
    }
  }

  /** What the rounds so far produced, then one more round, then the rest of the run. */
  lemma {:induction false} FuelStep(cfg: Config, states: seq<State>, store: Store, last: Option<int>, fuel: nat, left: nat)
    requires RunningWf(states, store) && fuel > 0 && left == fuel - 1
    ensures Rounds(cfg, states, store, last, left) == Rounds(cfg, states, store, last, fuel - 1)
  {
  }

  lemma {:induction false} SameRounds(cfg: Config, s1: seq<State>, st1: Store, l1: Option<int>,
                                      s2: seq<State>, st2: Store, l2: Option<int>, fuel: nat)
    requires RunningWf(s2, st2) && s1 == s2 && st1 == st2 && l1 == l2
    ensures RunningWf(s1, st1) && Rounds(cfg, s1, st1, l1, fuel) == Rounds(cfg, s2, st2, l2, fuel)
  {
  }

  /** A round played on running states with fuel left: the texts gathered so far, then the
      round's, then the rounds after it. */
  lemma {:induction false} TurnStep(cfg: Config, states: seq<State>, store: Store, last: Option<int>, fuel: nat,
                                    total: Finish, texts: seq<string>, stats: Stats, rest: Finish, one: Sweep)
    requires RunningWf(states, store) && Running(states) != 0 && fuel > 0
    requires rest == Rounds(cfg, states, store, last, fuel) && total == Prefix(texts, stats, rest)
    requires one == Round(cfg, states, store, last)
    ensures one.SweepCrash? ==> rest == RoundsCrash
    ensures one.Swept? ==> RunningWf(one.states, one.store)
    ensures one.Swept? ==> total == Prefix(texts + one.texts, AddStats(stats, one.stats),
                                           Rounds(cfg, one.states, one.store, one.last, fuel - 1))
  {
    RoundsStep(cfg, states, store, last, fuel);
    if one.Swept? {
      PrefixChain(total, texts, stats, rest, one, Rounds(cfg, one.states, one.store, one.last, fuel - 1));
    }
  }

  /** What a round that does not crash leaves of the run: the rest of the run from the next
      round's states with one step less, and the counters and programs of the round added. */
  lemma {:induction false} TurnAfter(cfg: Config, states: seq<State>, store: Store, last: Option<int>, fuel: nat,
                                     left: nat, total: Finish, texts: seq<string>, stats: Stats, rest: Finish,
                                     one: Sweep, t0: Run, tally0: Run, tally: Run)
      returns (after: Finish)
    requires RunningWf(states, store) && Running(states) != 0 && fuel > 0 && left == fuel - 1
    requires rest == Rounds(cfg, states, store, last, fuel) && total == Prefix(texts, stats, rest)
    requires one == Round(cfg, states, store, last) && one.Swept?
    requires t0.Ran? && tally0 == Glue(t0, Ran([], stats)) && tally == Glue(tally0, Ran([], one.stats))
    ensures RunningWf(one.states, one.store)
    ensures after == Rounds(cfg, one.states, one.store, one.last, left)
    ensures total == Prefix(texts + one.texts, AddStats(stats, one.stats), after)
    ensures tally == Glue(t0, Ran([], AddStats(stats, one.stats)))
  {
    TurnStep(cfg, states, store, last, fuel, total, texts, stats, rest, one);
    after := Rounds(cfg, one.states, one.store, one.last, left);
    FuelStep(cfg, one.states, one.store, one.last, fuel, left);
    GlueRan(t0, Ran([], stats), Ran([], one.stats));
  }

  lemma {:induction false} PrefixChain(total: Finish, texts: seq<string>, stats: Stats, before: Finish, one: Sweep, after: Finish)
    requires one.Swept?
    requires total == Prefix(texts, stats, before) && before == Prefix(one.texts, one.stats, after)
    ensures total == Prefix(texts + one.texts, AddStats(stats, one.stats), after)
  {
    PrefixAssoc(texts, stats, one.texts, one.stats, after);
  }

  lemma {:induction false} PrefixLeftUnit(r: Finish)
    ensures Prefix([], NoStats, r) == r
  {
    if r.Halted? {
      assert [] + r.texts == r.texts;
    }
  }

  lemma {:induction false} PrefixUnit(t: seq<string>, d: Stats, store: Store, last: Option<int>)
    ensures Prefix(t, d, Halted([], store, NoStats, last)) == Halted(t, store, d, last)
  {
    assert t + [] == t;
  }

  lemma {:induction false} AllWfGrow(states: seq<State>, s1: Store, s2: Store)
    requires AllWf(states, s1) && |s2| >= |s1|
    ensures AllWf(states, s2)
  {
    forall k | 0 <= k < |states| ensures Wf(states[k], s2) {
      assert Wf(states[k], s1);
    }
  }

  lemma {:induction false} RunningWfGrow(states: seq<State>, s1: Store, s2: Store)
    requires RunningWf(states, s1) && |s2| >= |s1|
    ensures RunningWf(states, s2)
  {
    forall k | 0 <= k < |states| && !states[k].ended ensures Wf(states[k], s2) {
      assert Wf(states[k], s1);
    }
  }

  lemma {:induction false} ClonesWf(st: State, store: Store, lines: seq<Instruction>)
    requires Wf(st, store) && AtLine(st)
    ensures AllWf(ClonesOf(st, lines), store)
  {
    var clones := ClonesOf(st, lines);
    forall k | 0 <= k < |clones| ensures Wf(clones[k], store) {
      ClonesDiffer(st, store, lines, k);
    }
  }

  /** Counting `n` new states and then `s` is counting `s` with the states raised by `n`. */
  lemma {:induction false} CountThenAdd(t0: Run, n: nat, s: Stats)
    requires t0.Ran?
    ensures Glue(Glue(t0, Ran([], NoStats.(states := n))), Ran([], s)) == Glue(t0, Ran([], s.(states := s.states + n)))
  {
    assert t0.texts + [] + [] == t0.texts + [];
  }

  /** One pass of the `while True` loop of `Interpreter.run`. */
  lemma {:induction false} RoundsStep(cfg: Config, states: seq<State>, store: Store, last: Option<int>, fuel: nat)
    requires RunningWf(states, store)
    ensures Running(states) == 0 ==> Rounds(cfg, states, store, last, fuel) == Halted([], store, NoStats, last)
    ensures Running(states) != 0 && fuel == 0 ==> Rounds(cfg, states, store, last, fuel) == RoundsOutOfFuel
    ensures var one := Round(cfg, states, store, last);
            Running(states) != 0 && fuel > 0 ==>
              && (one.SweepCrash? ==> Rounds(cfg, states, store, last, fuel) == RoundsCrash)
              && (one.Swept? ==> Rounds(cfg, states, store, last, fuel)
                                 == Prefix(one.texts, one.stats, Rounds(cfg, one.states, one.store, one.last, fuel - 1)))
  {
  }

  /** One pass of the `for temp in temps` loop. */
  lemma {:induction false} FireAllStep(temps: seq<State>, store: Store, last: Option<int>)
    requires |temps| > 0 && AllWf(temps, store)
    ensures Wf(temps[0], store)
    ensures var one := Fire(temps[0], store, last);
            && (one.SweepCrash? ==> FireAll(temps, store, last) == SweepCrash)
            && (one.Swept? ==>
                  && AllWf(temps[1..], one.store)
                  && FireAll(temps, store, last)
                     == Extend(one.states, one.texts, one.stats, FireAll(temps[1..], one.store, one.last)))
  {
    var one := Fire(temps[0], store, last);
    if one.Swept? {
      var rest := temps[1..];
      assert AllWf(rest, store) by {
        forall k | 0 <= k < |rest| ensures Wf(rest[k], store) {
          assert rest[k] == temps[k + 1];
        }
      }
      AllWfGrow(rest, store, one.store);
    }
  }

  /** One pass of the `while len(states) > 0` loop. */
  lemma {:induction false} RoundStep(cfg: Config, pending: seq<State>, store: Store, last: Option<int>)
    requires |pending| > 0 && RunningWf(pending, store)
    ensures pending[0].ended || Wf(pending[0], store)
    ensures var one := SweepState(cfg, pending[0], store, last);
            && (one.SweepCrash? ==> Round(cfg, pending, store, last) == SweepCrash)
            && (one.Swept? ==>
                  && RunningWf(pending[1..], one.store)
                  && Round(cfg, pending, store, last)
                     == Extend(one.states, one.texts, one.stats, Round(cfg, pending[1..], one.store, one.last)))
  {
    var one := SweepState(cfg, pending[0], store, last);
    if one.Swept? {
      assert RunningWf(pending[1..], store) by {
        forall k | 0 <= k < |pending[1..]| && !pending[1..][k].ended ensures Wf(pending[1..][k], store) {
          assert pending[1..][k] == pending[k + 1];
        }
      }
      RunningWfGrow(pending[1..], store, one.store);
    }
  }

  // ------------------------------------------------------------ the interpreter

  /** The `count_running` loop. */
  method CountRunning(states: seq<State>) returns (n: nat)
    ensures n == Running(states)
  {
    n := 0;
    var i := 0;
    while i < |states|
      invariant 0 <= i <= |states|
      invariant n == Running(states[..i])
    {
      assert states[..i + 1][..i] == states[..i];
      if !states[i].ended {
        n := n + 1;
      }
      i := i + 1;
    }
    assert states[..|states|] == states;
  }

  /** `Interpreter`: the states of the current round, the store of their variables and
      `last_retval`; the counters are the context's. */
  class Interpreter {
    const context: Context
    const cfg: Config
    var states: seq<State>
    var store: Store
    var lastRetval: Option<int>

    /** `Interpreter(context, case, code)`: one root state; creating it counts one state. */
    constructor (context: Context, c: Case, code: string)
      modifies context
      ensures this.context == context && cfg == JobConfig(context.job)
      ensures states == [RootState(c, code)] && store == RootStore(c) && lastRetval == None
      ensures RunningWf(states, store)
      ensures context.statStates == old(context.statStates) + 1 && context.solutions == old(context.solutions)
      ensures context.statRuns == old(context.statRuns) && context.statFailed == old(context.statFailed)
      ensures context.statUnfinished == old(context.statUnfinished)
    {
      var st, s := NewInterpreter(c, code);
      this.context := context;
      cfg := JobConfig(context.job);
      states := [st];
      store := s;
      lastRetval := None;
      new;
      context.Count(NoStats.(states := 1));
    }

    /** The states the replacer handed back execute their line, one after another. */
    method FireTemps(temps: seq<State>) returns (r: Sweep)
      requires AllWf(temps, store)
      modifies this, context
      ensures r == FireAll(temps, old(store), old(lastRetval))
      ensures states == old(states)
      ensures r.Swept? ==> store == r.store && lastRetval == r.last
      ensures r.Swept? ==> context.Tally() == Glue(old(context.Tally()), Ran([], r.stats))
    {
      var rest := temps;
      var produced: seq<State> := [];
      var texts: seq<string> := [];
      var stats := NoStats;
      ghost var t0 := context.Tally();
      GlueUnit(t0);
      ExtendLeftUnit(FireAll(temps, store, lastRetval));
      while |rest| > 0
        invariant states == old(states)
        invariant AllWf(rest, store)
        invariant FireAll(temps, old(store), old(lastRetval))
               == Extend(produced, texts, stats, FireAll(rest, store, lastRetval))
        invariant context.Tally() == Glue(t0, Ran([], stats))
        decreases |rest|
      {
        FireAllStep(rest, store, lastRetval);
        var one := Fire(rest[0], store, lastRetval);
        if one.SweepCrash? {
          return SweepCrash;
        }
        rest := rest[1..];
        ExtendAssoc(produced, texts, stats, one.states, one.texts, one.stats,
                    FireAll(rest, one.store, one.last));
        context.Count(one.stats);
        GlueRan(t0, Ran([], stats), Ran([], one.stats));
        produced := produced + one.states;
        texts := texts + one.texts;
        stats := AddStats(stats, one.stats);
        store := one.store;
        lastRetval := one.last;
      }
      ExtendUnit(produced, texts, stats, store, lastRetval);
      r := Swept(produced, store, texts, stats, lastRetval);
    }

    /** One state of a round: carried over when ended, else replaced and fired. */
    method Advance(st: State) returns (r: Sweep)
      requires st.ended || Wf(st, store)
      modifies this, context
      ensures r == SweepState(cfg, st, old(store), old(lastRetval))
      ensures states == old(states)
      ensures r.Swept? ==> store == r.store && lastRetval == r.last
      ensures r.Swept? ==> context.Tally() == Glue(old(context.Tally()), Ran([], r.stats))
    {
      if st.ended {
        GlueUnit(context.Tally());
        return Swept([st], store, [], NoStats, lastRetval);
      }
      if !AtLine(st) {
        return SweepCrash;
      }
      var rep := Replacer(cfg, st, store);
      if rep.ReplCrash? {
        return SweepCrash;
      } else if rep.ReplImpossible? {
        context.Count(NoStats.(unfinished := 1));
        return Swept([], store, [], NoStats.(unfinished := 1), lastRetval);
      } else if rep.Keep? {
        r := FireTemps([st]);
      } else {
        var clones := ClonesOf(st, rep.lines);
        ClonesWf(st, store, rep.lines);
        r := FireClones(clones, |rep.lines|);
      }
    }

    /** The replacer's `n` clones, counted as new states, fire in turn. */
    method FireClones(clones: seq<State>, n: nat) returns (r: Sweep)
      requires AllWf(clones, store)
      modifies this, context
      ensures var f := FireAll(clones, old(store), old(lastRetval));
              r == (if f.Swept? then f.(stats := f.stats.(states := f.stats.states + n)) else SweepCrash)
      ensures states == old(states)
      ensures r.Swept? ==> store == r.store && lastRetval == r.last
      ensures r.Swept? ==> context.Tally() == Glue(old(context.Tally()), Ran([], r.stats))
    {
      ghost var t0 := context.Tally();
      context.Count(NoStats.(states := n));
      assert store == old(store) && lastRetval == old(lastRetval);
      var fired := FireTemps(clones);
      if fired.SweepCrash? {
        return SweepCrash;
      }
      r := fired.(stats := fired.stats.(states := fired.stats.states + n));
      CountThenAdd(t0, n, fired.stats);
    }

    /** One round: every state of the round in turn; the states they produce are the next
        round's. */
    method PlayRound() returns (r: Sweep)
      requires RunningWf(states, store)
      modifies this, context
      ensures r == Round(cfg, old(states), old(store), old(lastRetval))
      ensures r.Swept? ==> states == r.states && store == r.store && lastRetval == r.last
      ensures r.Swept? ==> context.Tally() == Glue(old(context.Tally()), Ran([], r.stats))
    {
      var pending := states;
      var next: seq<State> := [];
      var texts: seq<string> := [];
      var stats := NoStats;
      ghost var t0 := context.Tally();
      GlueUnit(t0);
      ExtendLeftUnit(Round(cfg, states, store, lastRetval));
      while |pending| > 0
        invariant states == old(states)
        invariant RunningWf(pending, store)
        invariant Round(cfg, old(states), old(store), old(lastRetval))
               == Extend(next, texts, stats, Round(cfg, pending, store, lastRetval))
        invariant context.Tally() == Glue(t0, Ran([], stats))
        decreases |pending|
      {
        RoundStep(cfg, pending, store, lastRetval);
        var st := pending[0];
        pending := pending[1..];
        var one := Advance(st);
        if one.SweepCrash? {
          return SweepCrash;
        }
        ExtendAssoc(next, texts, stats, one.states, one.texts, one.stats,
                    Round(cfg, pending, one.store, one.last));
        GlueRan(t0, Ran([], stats), Ran([], one.stats));
        next := next + one.states;
        texts := texts + one.texts;
        stats := AddStats(stats, one.stats);
      }
      ExtendUnit(next, texts, stats, store, lastRetval);
      states := next;
      r := Swept(next, store, texts, stats, lastRetval);
    }

    /** `Interpreter.run`, with at most `fuel` rounds: rounds are played until no state is
        running. */
    method Run(fuel: nat) returns (r: Finish)
      requires RunningWf(states, store)
      modifies this, context
      ensures r == Rounds(cfg, old(states), old(store), old(lastRetval), fuel)
      ensures r.Halted? ==> store == r.store && lastRetval == r.last && Running(states) == 0
      ensures r.Halted? ==> context.Tally() == Glue(old(context.Tally()), Ran([], r.stats))
    {
      var f: nat := fuel;
      var texts: seq<string> := [];
      var stats := NoStats;
      ghost var t0 := context.Tally();
      GlueUnit(t0);
      ghost var total := Rounds(cfg, states, store, lastRetval, fuel);
      ghost var rest := total;
      PrefixLeftUnit(total);
      var running := CountRunning(states);
      while running != 0 && f != 0
        invariant RunningWf(states, store) && running == Running(states)
        invariant total == Rounds(cfg, old(states), old(store), old(lastRetval), fuel)
        invariant rest == Rounds(cfg, states, store, lastRetval, f)
        invariant total == Prefix(texts, stats, rest)
        invariant context.Tally() == Glue(t0, Ran([], stats))
        decreases f
      {
        var crashed;
        crashed, f, texts, stats, running, rest := Turn(f, total, t0, rest, texts, stats);
        if crashed {
          return RoundsCrash;
        }
      }
      RoundsStep(cfg, states, store, lastRetval, f);
      if running == 0 {
        PrefixUnit(texts, stats, store, lastRetval);
        return Halted(texts, store, stats, lastRetval);
      }
      return RoundsOutOfFuel;
    }

    /** One pass of the `while True` loop with states still running: a round is played, its
        texts and counts are added to those so far and the running states are counted again. */
    method Turn(f: nat, ghost total: Finish, ghost t0: Run, ghost rest: Finish, texts: seq<string>, stats: Stats)
        returns (crashed: bool, left: nat, texts': seq<string>, stats': Stats, running: nat, ghost after: Finish)
      requires f > 0 && RunningWf(states, store) && Running(states) != 0
      requires rest == Rounds(cfg, states, store, lastRetval, f) && total == Prefix(texts, stats, rest)
      requires context.Tally() == Glue(t0, Ran([], stats))
      modifies this, context
      ensures left < f
      ensures crashed ==> rest == RoundsCrash
      ensures !crashed ==> RunningWf(states, store) && running == Running(states)
      ensures !crashed ==> left == f - 1 && after == Rounds(cfg, states, store, lastRetval, left)
      ensures !crashed ==> total == Prefix(texts', stats', after)
      ensures !crashed ==> context.Tally() == Glue(t0, Ran([], stats'))
    {
      left := f - 1;
      ghost var states0, store0, last0, tally0 := states, store, lastRetval, context.Tally();
      var one := PlayRound();
      if one.SweepCrash? {
        TurnStep(cfg, states0, store0, last0, f, total, texts, stats, rest, one);
        crashed, texts', stats', running, after := true, texts, stats, 0, RoundsCrash;
        return;
      }
      running := CountRunning(states);
      after := TurnAfter(cfg, states0, store0, last0, f, left, total, texts, stats, rest, one, t0, tally0, context.Tally());
      SameRounds(cfg, states, store, lastRetval, one.states, one.store, one.last, left);
      crashed, texts', stats' := false, texts + one.texts, AddStats(stats, one.stats);
    }
  }

  // ------------------------------------------------------------ agreement

  /** A line the replacer leaves alone: `[ret]`, or a line without brackets. */
  predicate PlainCode(code: string) {
    code == "[ret]" || forall k :: 0 <= k < |code| ==> !IsBracket(code[k])
  }

  /** A program without slots to fill. */
  predicate Plain(lines: seq<Instruction>) {
    forall k :: 0 <= k < |lines| ==> PlainCode(lines[k].code)
  }

  /**
   * A plain interpreter loop: execute the current line, stop at a return or a failure,
   * otherwise move the code pointer on; a code pointer off the program raises. This is what
   * both searches do with a program whose lines hold no slots.
   */
  function Straight(st: State, store: Store, fuel: nat): (r: Search)
    requires Wf(st, store)
    decreases fuel, 1
  {
    if fuel == 0 then OutOfFuel
    else if st.ended then Found([], store, NoStats)
    else if !AtLine(st) then SearchCrash
    else StraightStep(st, store, fuel)
  }

  /** The plain loop's current line executed. */
  function StraightStep(st: State, store: Store, fuel: nat): (r: Search)
    requires Wf(st, store) && AtLine(st) && fuel > 0
    decreases fuel, 0
  {
    match Execute(st, store)
    case Crash => SearchCrash
    case Failed => Found([], store, NoStats.(failed := 1))
    case Return(st', store') =>
      Found(if st'.retval == st.expected then [AllCode(st'.lines)] else [], store', NoStats.(runs := 1))
    case Continue(st', store', jump) =>
      var next := st'.(codePointer := if jump.Some? then jump.value else st'.codePointer + 1);
      if !AtLine(next) then SearchCrash else Straight(next, store', fuel - 1)
  }

  lemma {:induction false} NoBracketNoSlot(code: string)
    requires forall k :: 0 <= k < |code| ==> !IsBracket(code[k])
    ensures !Contains(code, "[")
  {
    forall i | 0 <= i <= |code| ensures !("[" <= code[i..]) {
      if i < |code| {
        assert code[i..][0] == code[i];
      }
    }
  }

  /** The replacer hands a plain line's state back unchanged. */
  lemma {:induction false} PlainKeep(cfg: Config, st: State, store: Store)
    requires Wf(st, store) && AtLine(st) && PlainCode(st.lines[st.codePointer].code)
    ensures Replacer(cfg, st, store) == Keep
    ensures var code := st.lines[st.codePointer].code; code == "[ret]" || !Contains(code, "[")
  {
    var code := st.lines[st.codePointer].code;
    if code != "[ret]" {
      NoBracketNoSlot(code);
    }
  }

  /** The depth-first search of a single state is that state's search. */
  lemma {:induction false} ExploreSingle(cfg: Config, st: State, store: Store, fuel: nat, stop: bool)
    requires Wf(st, store)
    ensures Explore(cfg, [st], store, fuel, stop) == StateIncrement(cfg, st, store, fuel, stop)
  {
    var states := [st];
    assert states[0] == st && states[1..] == [];
    var first := StateIncrement(cfg, st, store, fuel, stop);
    if first.Found? && !(stop && |first.texts| > 0) {
      var rest := Explore(cfg, states[1..], first.store, fuel, stop);
      assert rest == Found([], first.store, NoStats);
      assert first.texts + [] == first.texts && AddStats(first.stats, NoStats) == first.stats;
    }
  }

  /** On a plain program the depth-first search is the plain loop. */
  lemma {:induction false} StateIncrementPlain(cfg: Config, st: State, store: Store, fuel: nat, stop: bool)
    requires Wf(st, store) && Plain(st.lines)
    ensures StateIncrement(cfg, st, store, fuel, stop) == Straight(st, store, fuel)
    decreases fuel, 1
  {
    if fuel > 0 && !st.ended && AtLine(st) {
      PlainKeep(cfg, st, store);
      SteppedPlain(cfg, st, store, fuel, stop);
    }
  }

  /** A plain line executed: both loops go on from the same next state. */
  lemma {:induction false} SteppedPlain(cfg: Config, st: State, store: Store, fuel: nat, stop: bool)
    requires Wf(st, store) && Plain(st.lines) && AtLine(st) && fuel > 0
    ensures Stepped(cfg, st, store, fuel, stop) == StraightStep(st, store, fuel)
    decreases fuel, 0
  {
    match Execute(st, store)
    case Continue(st', store', jump) =>
      var next := st'.(codePointer := if jump.Some? then jump.value else st'.codePointer + 1);
      if AtLine(next) {
        BranchPlain(cfg, next, store', fuel - 1, stop);
      }
    case _ =>
  }

  /** Branching on a state at a plain line is the plain loop from that state. */
  lemma {:induction false} BranchPlain(cfg: Config, st: State, store: Store, fuel: nat, stop: bool)
    requires Wf(st, store) && Plain(st.lines) && AtLine(st)
    ensures Branch(cfg, st, store, fuel, stop) == Straight(st, store, fuel)
    decreases fuel, 2
  {
    BranchKeep(cfg, st, store, fuel, stop);
    StateIncrementPlain(cfg, st, store, fuel, stop);
  }

  /** The replacer leaves a plain line alone, so branching on it is searching it. */
  lemma {:induction false} BranchKeep(cfg: Config, st: State, store: Store, fuel: nat, stop: bool)
    requires Wf(st, store) && AtLine(st) && PlainCode(st.lines[st.codePointer].code)
    ensures Branch(cfg, st, store, fuel, stop) == StateIncrement(cfg, st, store, fuel, stop)
  {
    PlainKeep(cfg, st, store);
    ExploreSingle(cfg, st, store, fuel, stop);
  }

  /** A round of one state is that state's part of the round. */
  lemma {:induction false} RoundSingle(cfg: Config, st: State, store: Store, last: Option<int>)
    requires st.ended || Wf(st, store)
    ensures Round(cfg, [st], store, last) == SweepState(cfg, st, store, last)
  {
    assert [st][0] == st;
    assert [st][1..] == [];
    var one := SweepState(cfg, st, store, last);
    if one.Swept? {
      ExtendUnit(one.states, one.texts, one.stats, one.store, one.last);
    }
  }

  lemma {:induction false} FireAllSingle(st: State, store: Store, last: Option<int>)
    requires Wf(st, store)
    ensures FireAll([st], store, last) == Fire(st, store, last)
  {
    assert [st][0] == st;
    assert [st][1..] == [];
    var one := Fire(st, store, last);
    if one.Swept? {
      ExtendUnit(one.states, one.texts, one.stats, one.store, one.last);
    }
  }

  /** One round of a plain state executes its line. */
  lemma {:induction false} RoundPlain(cfg: Config, st: State, store: Store, last: Option<int>)
    requires Wf(st, store) && !st.ended && AtLine(st) && PlainCode(st.lines[st.codePointer].code)
    ensures Round(cfg, [st], store, last) == Fire(st, store, last)
  {
    RoundSingle(cfg, st, store, last);
    PlainKeep(cfg, st, store);
    FireAllSingle(st, store, last);
  }

  /** A run whose states have all ended finishes at once. */
  lemma {:induction false} RoundsEnded(cfg: Config, st: State, store: Store, last: Option<int>, fuel: nat)
    requires st.ended
    ensures Rounds(cfg, [st], store, last, fuel) == Halted([], store, NoStats, last)
  {
    assert Running([st]) == 0;
  }

  /** Executing the line of a plain state: either the run ends there with what the plain loop
      finds, or it goes on with a plain state the plain loop continues from. */
  lemma {:induction false} FireStraight(st: State, store: Store, last: Option<int>, fuel: nat)
    requires Wf(st, store) && Plain(st.lines) && !st.ended && AtLine(st)
    requires Straight(st, store, fuel).Found?
    ensures var one := Fire(st, store, last);
            var s := Straight(st, store, fuel);
            && one.Swept? && |one.states| == 1 && fuel > 0
            && ((one.states[0].ended && one.texts == s.texts && one.store == s.store && one.stats == s.stats)
                || (Wf(one.states[0], one.store) && Plain(one.states[0].lines) && one.texts == []
                    && one.stats == NoStats && Straight(one.states[0], one.store, fuel - 1) == s))
  {
  }

  /** The run of a state whose first round gives `one` and ends it there. */
  lemma {:induction false} RoundsGlueDone(cfg: Config, st: State, store: Store, last: Option<int>, fuel: nat, one: Sweep, next: State, s: Search)
    requires Wf(st, store) && !st.ended && fuel > 0 && s.Found?
    requires Round(cfg, [st], store, last) == one && one.Swept? && one.states == [next]
    requires next.ended && one.texts == s.texts && one.store == s.store && one.stats == s.stats
    ensures var r := Rounds(cfg, [st], store, last, fuel);
            r.Halted? && r.texts == s.texts && r.store == s.store && r.stats == s.stats
  {
    assert Running([st]) != 0 by {
      assert !([st][0].ended);
    }
    RoundsStep(cfg, [st], store, last, fuel);
    RoundsEnded(cfg, next, one.store, one.last, fuel - 1);
    PrefixUnit(one.texts, one.stats, one.store, one.last);
  }

  /** The run of a state whose first round gives `one`, going on from `next` without output. */
  lemma {:induction false} RoundsGlueMore(cfg: Config, st: State, store: Store, last: Option<int>, fuel: nat, one: Sweep, next: State, s: Search)
    requires Wf(st, store) && !st.ended && fuel > 0 && s.Found?
    requires Round(cfg, [st], store, last) == one && one.Swept? && one.states == [next]
    requires RunningWf([next], one.store) && one.texts == [] && one.stats == NoStats
    requires var r := Rounds(cfg, [next], one.store, one.last, fuel - 1);
             r.Halted? && r.texts == s.texts && r.store == s.store && r.stats == s.stats
    ensures var r := Rounds(cfg, [st], store, last, fuel);
            r.Halted? && r.texts == s.texts && r.store == s.store && r.stats == s.stats
  {
    assert Running([st]) != 0 by {
      assert !([st][0].ended);
    }
    RoundsStep(cfg, [st], store, last, fuel);
    PrefixLeftUnit(Rounds(cfg, [next], one.store, one.last, fuel - 1));
  }

  /**
   * On a plain program the round-based run finds what the plain loop finds: the same
   * programs, with the same store and the same counts, within the same bound.
   */
  lemma {:induction false} RoundsPlain(cfg: Config, st: State, store: Store, last: Option<int>, fuel: nat)
    requires Wf(st, store) && Plain(st.lines) && Straight(st, store, fuel).Found?
    ensures var s := Straight(st, store, fuel);
            var r := Rounds(cfg, [st], store, last, fuel);
            r.Halted? && r.texts == s.texts && r.store == s.store && r.stats == s.stats
    decreases fuel
  {
    if st.ended {
      RoundsEnded(cfg, st, store, last, fuel);
    } else {
      var s := Straight(st, store, fuel);
      var done, one, next := PlainRound(cfg, st, store, last, fuel, s);
      if done {
        RoundsGlueDone(cfg, st, store, last, fuel, one, next, s);
      } else {
        RoundsPlain(cfg, next, one.store, one.last, fuel - 1);
        RoundsGlueMore(cfg, st, store, last, fuel, one, next, s);
      }
    }
  }

  /** The first round of a running plain program fires its one state. */
  lemma {:induction false} PlainRound(cfg: Config, st: State, store: Store, last: Option<int>, fuel: nat, s: Search)
      returns (done: bool, one: Sweep, next: State)
    requires Wf(st, store) && Plain(st.lines) && !st.ended && s == Straight(st, store, fuel) && s.Found?
    ensures fuel > 0 && one == Round(cfg, [st], store, last) && one.Swept? && one.states == [next]
    ensures done ==> next.ended && one.texts == s.texts && one.store == s.store && one.stats == s.stats
    ensures !done ==> && Wf(next, one.store) && Plain(next.lines) && RunningWf([next], one.store)
                      && one.texts == [] && one.stats == NoStats && Straight(next, one.store, fuel - 1) == s
  {
    RoundPlain(cfg, st, store, last);
    FireStraight(st, store, last, fuel);
    one := Fire(st, store, last);
    next := one.states[0];
    assert one.states == [next];
    done := next.ended && one.texts == s.texts && one.store == s.store && one.stats == s.stats;
  }

  /** The two searches agree on plain programs. */
  lemma {:induction false} SearchesAgree(cfg: Config, st: State, store: Store, last: Option<int>, fuel: nat)
    requires Wf(st, store) && Plain(st.lines) && StateIncrement(cfg, st, store, fuel, false).Found?
    ensures var s := StateIncrement(cfg, st, store, fuel, false);
            var r := Rounds(cfg, [st], store, last, fuel);
            r.Halted? && r.texts == s.texts && r.stats == s.stats
  {
    StateIncrementPlain(cfg, st, store, fuel, false);
    RoundsPlain(cfg, st, store, last, fuel);
  }
}
