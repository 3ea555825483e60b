/**
 * What the round-based search (cold/cold.py, `Interpreter.run`) yields, stated branch by
 * branch.
 *
 * A branch follows one state from round to round: the replacer fills its current line (or
 * keeps it), one of the states it hands back executes that line, and a continuing line
 * goes on in the next round. All states of a round take turns on one store, so the store a
 * line runs on depends on every state before it; a branch here may run each line on any
 * store its variables fit.
 */
module ColdRoundPaths {
  import opened Wrappers
  import opened Text
  import opened Instructions
  import opened ColdVm
  import opened ColdSearch
  import opened ColdRounds
  import ColdBranches

  /** Some branch from `st` yields `t` within `n` rounds. */
  ghost predicate RoundPath(cfg: Config, st: State, t: string, n: nat)
    decreases n, 3
  {
    n > 0 && !st.ended && AtLine(st) && exists store :: Wf(st, store) && Fills(cfg, st, store, t, n)
  }

  /** The replacer keeps the state or hands back clones; it or one of them fires. */
  ghost predicate Fills(cfg: Config, st: State, store: Store, t: string, n: nat)
    requires Wf(st, store) && AtLine(st)
    decreases n, 2
  {
    match Replacer(cfg, st, store)
    case Keep => Fires(cfg, st, t, n)
    case Clones(lines) => exists k :: 0 <= k < |lines| && Fires(cfg, ClonesOf(st, lines)[k], t, n)
    case _ => false
  }

  /** The state executes its line on some store its variables fit. */
  ghost predicate Fires(cfg: Config, temp: State, t: string, n: nat)
    decreases n, 1
  {
    n > 0 && AtLine(temp) && exists s :: Wf(temp, s) && FiresOn(cfg, temp, s, t, n)
  }

  /** A return of the expected value yields the code of the returning state; a continuing
      line goes on in the next round. */
  ghost predicate FiresOn(cfg: Config, temp: State, s: Store, t: string, n: nat)
    requires Wf(temp, s) && AtLine(temp) && n > 0
    decreases n, 0
  {
    match Execute(temp, s)
    case Return(st', _) => st'.retval == temp.expected && t == AllCode(st'.lines)
    case Continue(st', _, jump) => RoundPath(cfg, ColdBranches.Next(st', jump), t, n - 1)
    case _ => false
  }

  /** Some state of `temps` fires and yields `t` within `n` rounds. */
  ghost predicate AnyFires(cfg: Config, temps: seq<State>, t: string, n: nat) {
    exists i :: 0 <= i < |temps| && Fires(cfg, temps[i], t, n)
  }

  /** Some branch from one of `states` yields `t` within `n` rounds. */
  ghost predicate AnyPath(cfg: Config, states: seq<State>, t: string, n: nat) {
    exists k :: 0 <= k < |states| && RoundPath(cfg, states[k], t, n)
  }

  lemma {:induction false} AnyFiresCons(cfg: Config, temps: seq<State>, t: string, n: nat)
    requires |temps| > 0
    ensures AnyFires(cfg, temps, t, n) <==> Fires(cfg, temps[0], t, n) || AnyFires(cfg, temps[1..], t, n)
  {
    if AnyFires(cfg, temps[1..], t, n) {
      var i :| 0 <= i < |temps[1..]| && Fires(cfg, temps[1..][i], t, n);
      assert temps[i + 1] == temps[1..][i];
    }
    if AnyFires(cfg, temps, t, n) {
      var i :| 0 <= i < |temps| && Fires(cfg, temps[i], t, n);
      if i > 0 {
        assert temps[1..][i - 1] == temps[i];
      }
    }
  }

  lemma {:induction false} AnyPathConcat(cfg: Config, a: seq<State>, b: seq<State>, t: string, n: nat)
    ensures AnyPath(cfg, a + b, t, n) <==> AnyPath(cfg, a, t, n) || AnyPath(cfg, b, t, n)
  {
    if AnyPath(cfg, a + b, t, n) {
      var k :| 0 <= k < |a + b| && RoundPath(cfg, (a + b)[k], t, n);
      if k < |a| {
        assert (a + b)[k] == a[k];
      } else {
        assert (a + b)[k] == b[k - |a|];
      }
    }
    if AnyPath(cfg, a, t, n) {
      var k :| 0 <= k < |a| && RoundPath(cfg, a[k], t, n);
      assert (a + b)[k] == a[k];
    }
    if AnyPath(cfg, b, t, n) {
      var k :| 0 <= k < |b| && RoundPath(cfg, b[k], t, n);
      assert (a + b)[|a| + k] == b[k];
    }
  }

  lemma {:induction false} AnyPathCons(cfg: Config, states: seq<State>, t: string, n: nat)
    requires |states| > 0
    ensures AnyPath(cfg, states, t, n) <==> RoundPath(cfg, states[0], t, n) || AnyPath(cfg, states[1..], t, n)
  {
    assert states == [states[0]] + states[1..];
    AnyPathConcat(cfg, [states[0]], states[1..], t, n);
    assert [states[0]][0] == states[0];
  }

  // ------------------------------------------------------------ one state firing

  /** A state fires and yields exactly when its line returns the expected value, and the
      text is then the code of the returning state. */
  lemma {:induction false} FireYields(temp: State, store: Store, last: Option<int>, t: string)
    requires Wf(temp, store)
    ensures var r := Fire(temp, store, last);
            r.Swept? ==> (t in r.texts <==>
                          && AtLine(temp)
                          && var e := Execute(temp, store);
                             e.Return? && e.state.retval == temp.expected && t == AllCode(e.state.lines))
  {
  }

  /** What a fired state yields, and every branch its successor starts, go back to it. */
  lemma {:induction false} FireSound(cfg: Config, temp: State, store: Store, last: Option<int>, t: string, n: nat)
    requires Wf(temp, store) && n > 0
    ensures var r := Fire(temp, store, last);
            r.Swept? && (t in r.texts || AnyPath(cfg, r.states, t, n - 1)) ==> Fires(cfg, temp, t, n)
  {
    var r := Fire(temp, store, last);
    if r.Swept? {
      assert AtLine(temp);
      AnyPathCons(cfg, r.states, t, n - 1);
      assert r.states[1..] == [];
      if t in r.texts || RoundPath(cfg, r.states[0], t, n - 1) {
        assert FiresOn(cfg, temp, store, t, n);
      }
    }
  }

  lemma {:induction false} FireAllCons(temps: seq<State>, store: Store, last: Option<int>)
    requires AllWf(temps, store) && |temps| > 0
    ensures var r, one := FireAll(temps, store, last), Fire(temps[0], store, last);
            r.Swept? ==> && one.Swept? && AllWf(temps[1..], one.store)
                         && var rest := FireAll(temps[1..], one.store, one.last);
                            rest.Swept? && r.states == one.states + rest.states && r.texts == one.texts + rest.texts
  {
    var one := Fire(temps[0], store, last);
    if one.Swept? {
      assert AllWf(temps[1..], one.store) by {
        forall k | 0 <= k < |temps[1..]| ensures Wf(temps[1..][k], one.store) {
          assert Wf(temps[k + 1], store);
        }
      }
    }
  }

  /** The `for temp in temps` loop of a round: what it yields, and every branch its states
      start, go back to one of the states it fired. */
  lemma {:induction false} FireAllSound(cfg: Config, temps: seq<State>, store: Store, last: Option<int>, t: string, n: nat)
    requires AllWf(temps, store) && n > 0
    ensures var r := FireAll(temps, store, last);
            r.Swept? && (t in r.texts || AnyPath(cfg, r.states, t, n - 1)) ==> AnyFires(cfg, temps, t, n)
    decreases |temps|
  {
    var r := FireAll(temps, store, last);
    if |temps| > 0 && r.Swept? {
      FireAllCons(temps, store, last);
      var one := Fire(temps[0], store, last);
      var rest := FireAll(temps[1..], one.store, one.last);
      FireSound(cfg, temps[0], store, last, t, n);
      FireAllSound(cfg, temps[1..], one.store, one.last, t, n);
      AnyPathConcat(cfg, one.states, rest.states, t, n - 1);
      AnyFiresCons(cfg, temps, t, n);
    }
  }

  // ------------------------------------------------------------ one state of a round

  /** What one state's part of a round yields, and every branch its successors start, go
      back to a branch from that state. */
  lemma {:induction false} SweepStateSound(cfg: Config, st: State, store: Store, last: Option<int>, t: string, n: nat)
    requires (st.ended || Wf(st, store)) && n > 0
    ensures var r := SweepState(cfg, st, store, last);
            r.Swept? && (t in r.texts || AnyPath(cfg, r.states, t, n - 1)) ==> RoundPath(cfg, st, t, n)
  {
    var r := SweepState(cfg, st, store, last);
    if st.ended {
      AnyPathCons(cfg, r.states, t, n - 1);
      assert r.states[1..] == [];
    } else if AtLine(st) && r.Swept? {
      match Replacer(cfg, st, store)
      case Keep => KeptSound(cfg, st, store, last, t, n);
      case Clones(lines) => ClonesSound(cfg, st, store, last, lines, t, n);
      case _ =>
    }
  }

  lemma {:induction false} KeptSound(cfg: Config, st: State, store: Store, last: Option<int>, t: string, n: nat)
    requires Wf(st, store) && !st.ended && AtLine(st) && n > 0 && Replacer(cfg, st, store) == Keep
    ensures var r := FireAll([st], store, last);
            r.Swept? && (t in r.texts || AnyPath(cfg, r.states, t, n - 1)) ==> RoundPath(cfg, st, t, n)
  {
    var r := FireAll([st], store, last);
    FireAllSound(cfg, [st], store, last, t, n);
    AnyFiresCons(cfg, [st], t, n);
    assert [st][0] == st && [st][1..] == [];
    if r.Swept? && (t in r.texts || AnyPath(cfg, r.states, t, n - 1)) {
      assert Fills(cfg, st, store, t, n);
    }
  }

  lemma {:induction false} ClonesSound(cfg: Config, st: State, store: Store, last: Option<int>, lines: seq<Instruction>, t: string, n: nat)
    requires Wf(st, store) && !st.ended && AtLine(st) && n > 0 && Replacer(cfg, st, store) == Clones(lines)
    ensures var r := SweepState(cfg, st, store, last);
            r.Swept? && (t in r.texts || AnyPath(cfg, r.states, t, n - 1)) ==> RoundPath(cfg, st, t, n)
  {
    var clones := ClonesOf(st, lines);
    assert AllWf(clones, store) by {
      forall k | 0 <= k < |clones| ensures Wf(clones[k], store) {
        ClonesDiffer(st, store, lines, k);
      }
    }
    var f := FireAll(clones, store, last);
    FireAllSound(cfg, clones, store, last, t, n);
    var r := SweepState(cfg, st, store, last);
    if r.Swept? {
      assert f.Swept? && r.texts == f.texts && r.states == f.states;
      if t in r.texts || AnyPath(cfg, r.states, t, n - 1) {
        var i :| 0 <= i < |clones| && Fires(cfg, clones[i], t, n);
        assert Fills(cfg, st, store, t, n);
      }
    }
  }

  // ------------------------------------------------------------ rounds

  lemma {:induction false} RoundCons(cfg: Config, states: seq<State>, store: Store, last: Option<int>)
    requires RunningWf(states, store) && |states| > 0
    ensures var r, one := Round(cfg, states, store, last), SweepState(cfg, states[0], store, last);
            r.Swept? ==> && one.Swept? && RunningWf(states[1..], one.store)
                         && var rest := Round(cfg, states[1..], one.store, one.last);
                            rest.Swept? && r.states == one.states + rest.states && r.texts == one.texts + rest.texts
  {
    var one := SweepState(cfg, states[0], store, last);
    if one.Swept? {
      assert RunningWf(states[1..], one.store) by {
        forall k | 0 <= k < |states[1..]| && !states[1..][k].ended ensures Wf(states[1..][k], one.store) {
          assert Wf(states[k + 1], store);
        }
      }
    }
  }

  /** What a round yields, and every branch the next round's states start, go back to a
      branch from one of the round's states. */
  lemma {:induction false} RoundSound(cfg: Config, states: seq<State>, store: Store, last: Option<int>, t: string, n: nat)
    requires RunningWf(states, store) && n > 0
    ensures var r := Round(cfg, states, store, last);
            r.Swept? && (t in r.texts || AnyPath(cfg, r.states, t, n - 1)) ==> AnyPath(cfg, states, t, n)
    decreases |states|
  {
    var r := Round(cfg, states, store, last);
    if |states| > 0 && r.Swept? {
      RoundCons(cfg, states, store, last);
      var one := SweepState(cfg, states[0], store, last);
      var rest := Round(cfg, states[1..], one.store, one.last);
      SweepStateSound(cfg, states[0], store, last, t, n);
      RoundSound(cfg, states[1..], one.store, one.last, t, n);
      AnyPathConcat(cfg, one.states, rest.states, t, n - 1);
      AnyPathCons(cfg, states, t, n);
    }
  }

  /** Every program `Interpreter.run` yields within `fuel` rounds is yielded by a branch from
      one of the states it started from. */
  lemma {:induction false} RoundsSound(cfg: Config, states: seq<State>, store: Store, last: Option<int>, fuel: nat, t: string)
    requires RunningWf(states, store)
    ensures var r := Rounds(cfg, states, store, last, fuel);
            r.Halted? && t in r.texts ==> AnyPath(cfg, states, t, fuel)
    decreases fuel
  {
    var r := Rounds(cfg, states, store, last, fuel);
    if Running(states) != 0 && fuel > 0 && r.Halted? {
      var one := Round(cfg, states, store, last);
      var rest := Rounds(cfg, one.states, one.store, one.last, fuel - 1);
      assert one.Swept? && r == Prefix(one.texts, one.stats, rest);
      RoundSound(cfg, states, store, last, t, fuel);
      RoundsSound(cfg, one.states, one.store, one.last, fuel - 1, t);
    }
  }

  /** The run of one interpreter: every program it yields is yielded by a branch from its
      root state. */
  lemma {:induction false} RunSound(cfg: Config, c: ColdContext.Case, code: string, fuel: nat, t: string)
    ensures var root, store := ColdContext.RootState(c, code), ColdContext.RootStore(c);
            RunningWf([root], store)
            && (var r := Rounds(cfg, [root], store, None, fuel);
                r.Halted? && t in r.texts ==> RoundPath(cfg, root, t, fuel))
  {
    var root, store := ColdContext.RootState(c, code), ColdContext.RootStore(c);
    assert Wf(root, store);
    RoundsSound(cfg, [root], store, None, fuel, t);
    AnyPathCons(cfg, [root], t, fuel);
    assert [root][0] == root && [root][1..] == [];
  }
}
