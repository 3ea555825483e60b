/**
 * What the depth-first search (cold/cold.py, `Interpreter.state_increment`) yields, stated
 * branch by branch.
 *
 * A branch follows one state: a concrete line (one without slots, or `[ret]`) is executed,
 * and a line with slots is replaced by one of the replacer's clones. The branch accepts a
 * text when it ends in a return of the expected value and the text is the code of the
 * returning state. Clones share their variables' cells with the state they were made from,
 * so the store a clone starts from is the one its earlier siblings' searches leave behind.
 */
module ColdBranches {
  import opened Wrappers
  import opened Text
  import opened Instructions
  import opened ColdVm
  import opened ColdSearch
  import opened ColdContext

  /** The state a continuing line leaves: its code pointer at the jump target, or on the
      next line. */
  function Next(st: State, jump: Option<int>): State {
    st.(codePointer := if jump.Some? then jump.value else st.codePointer + 1)
  }

  /** A line `state_increment` executes at once: `[ret]` or one without a `[`. */
  predicate Concrete(st: State)
    requires AtLine(st)
  {
    var code := st.lines[st.codePointer].code;
    code == "[ret]" || !Contains(code, "[")
  }

  /** Some branch from `st` on `store` accepts `t` within `n` steps. */
  ghost predicate Accepts(cfg: Config, st: State, store: Store, t: string, n: nat, stop: bool)
    decreases n, 1, 0
  {
    && n > 0 && Wf(st, store) && !st.ended && AtLine(st)
    && if Concrete(st) then AcceptsStep(cfg, st, store, t, n, stop)
       else AcceptsBranch(cfg, st, store, t, n - 1, stop)
  }

  /** The branch executes the current line: a return of the expected value accepts the code
      of the returning state; a continuing line goes on from the next line. */
  ghost predicate AcceptsStep(cfg: Config, st: State, store: Store, t: string, n: nat, stop: bool)
    requires Wf(st, store) && AtLine(st) && n > 0
    decreases n, 0, 0
  {
    match Execute(st, store)
    case Return(st', _) => st'.retval == st.expected && t == AllCode(st'.lines)
    case Continue(st', store', jump) => AcceptsBranch(cfg, Next(st', jump), store', t, n - 1, stop)
    case _ => false
  }

  /** The branch goes through the replacer: a kept state goes on as it is, otherwise one of
      the clones goes on, from the store its earlier siblings leave. */
  ghost predicate AcceptsBranch(cfg: Config, st: State, store: Store, t: string, n: nat, stop: bool)
    decreases n, 3, 0
  {
    && Wf(st, store) && AtLine(st)
    && match Replacer(cfg, st, store)
       case Keep => Accepts(cfg, st, store, t, n, stop)
       case Clones(lines) => exists k :: 0 <= k < |lines| && AcceptsAfter(cfg, ClonesOf(st, lines), store, k, t, n, stop)
       case _ => false
  }

  /** State `k` accepts `t`, starting from the store the searches of the states before it
      leave (and those searches end). */
  ghost predicate AcceptsAfter(cfg: Config, states: seq<State>, store: Store, k: int, t: string, n: nat, stop: bool)
    decreases n, 2, 0
  {
    && 0 <= k < |states| && AllWf(states[..k], store)
    && var pre := Explore(cfg, states[..k], store, n, stop);
       pre.Found? && Accepts(cfg, states[k], pre.store, t, n, stop)
  }

  // ------------------------------------------------------------ the search yields them

  /**
   * Every text `state_increment` yields is accepted by some branch; without the caller's
   * `break` (`stop` unset) every text some branch accepts is yielded, once the search ends.
   */
  lemma {:induction false} SearchAccepts(cfg: Config, st: State, store: Store, t: string, fuel: nat, stop: bool)
    requires Wf(st, store)
    ensures var r := StateIncrement(cfg, st, store, fuel, stop);
            r.Found? ==> && (t in r.texts ==> Accepts(cfg, st, store, t, fuel, stop))
                         && (!stop && Accepts(cfg, st, store, t, fuel, stop) ==> t in r.texts)
    decreases fuel, 1, 0
  {
    if fuel > 0 && !st.ended && AtLine(st) {
      if Concrete(st) {
        SteppedAccepts(cfg, st, store, t, fuel, stop);
      } else {
        BranchAccepts(cfg, st, store, t, fuel - 1, stop);
      }
    }
  }

  lemma {:induction false} SteppedAccepts(cfg: Config, st: State, store: Store, t: string, fuel: nat, stop: bool)
    requires Wf(st, store) && AtLine(st) && fuel > 0
    ensures var r := Stepped(cfg, st, store, fuel, stop);
            r.Found? ==> && (t in r.texts ==> AcceptsStep(cfg, st, store, t, fuel, stop))
                         && (!stop && AcceptsStep(cfg, st, store, t, fuel, stop) ==> t in r.texts)
    decreases fuel, 0, 0
  {
    var r := Stepped(cfg, st, store, fuel, stop);
    match Execute(st, store)
    case Return(st', store') =>
      assert r.texts == if st'.retval == st.expected then [AllCode(st'.lines)] else [];
      assert AcceptsStep(cfg, st, store, t, fuel, stop) == (st'.retval == st.expected && t == AllCode(st'.lines));
    case Continue(st', store', jump) =>
      BranchAccepts(cfg, Next(st', jump), store', t, fuel - 1, stop);
      assert r == Branch(cfg, Next(st', jump), store', fuel - 1, stop);
      assert AcceptsStep(cfg, st, store, t, fuel, stop) == AcceptsBranch(cfg, Next(st', jump), store', t, fuel - 1, stop);
    case _ =>
  }

  lemma {:induction false} BranchAccepts(cfg: Config, st: State, store: Store, t: string, fuel: nat, stop: bool)
    requires Wf(st, store)
    ensures var r := Branch(cfg, st, store, fuel, stop);
            r.Found? ==> && (t in r.texts ==> AcceptsBranch(cfg, st, store, t, fuel, stop))
                         && (!stop && AcceptsBranch(cfg, st, store, t, fuel, stop) ==> t in r.texts)
    decreases fuel, 3, 0
  {
    if AtLine(st) {
      var r := Branch(cfg, st, store, fuel, stop);
      match Replacer(cfg, st, store)
      case Keep =>
        KeepAccepts(cfg, st, store, t, fuel, stop);
        assert r == Explore(cfg, [st], store, fuel, stop);
        assert AcceptsBranch(cfg, st, store, t, fuel, stop) == Accepts(cfg, st, store, t, fuel, stop);
      case Clones(lines) =>
        ClonesAccept(cfg, st, store, lines, t, fuel, stop);
        var e := Explore(cfg, ClonesOf(st, lines), store, fuel, stop);
        assert r.Found? ==> e.Found? && r.texts == e.texts;
        assert AcceptsBranch(cfg, st, store, t, fuel, stop)
            == exists k :: 0 <= k < |lines| && AcceptsAfter(cfg, ClonesOf(st, lines), store, k, t, fuel, stop);
      case _ =>
    }
  }

  /** A kept state's search is the search of that one state. */
  lemma {:induction false} KeepAccepts(cfg: Config, st: State, store: Store, t: string, fuel: nat, stop: bool)
    requires Wf(st, store)
    ensures var r := Explore(cfg, [st], store, fuel, stop);
            r.Found? ==> && (t in r.texts ==> Accepts(cfg, st, store, t, fuel, stop))
                         && (!stop && Accepts(cfg, st, store, t, fuel, stop) ==> t in r.texts)
    decreases fuel, 2, 2
  {
    assert [st][0] == st;
    ExploreAccepts(cfg, [st], store, t, fuel, stop);
    OnlyFirst(cfg, [st], store, t, fuel, stop);
  }

  /** The clones' search accepts what one of the clones accepts after its siblings. */
  lemma {:induction false} ClonesAccept(cfg: Config, st: State, store: Store, lines: seq<Instruction>, t: string, fuel: nat, stop: bool)
    requires Wf(st, store) && AtLine(st)
    ensures AllWf(ClonesOf(st, lines), store)
    ensures var r := Explore(cfg, ClonesOf(st, lines), store, fuel, stop);
            r.Found? ==> && (t in r.texts ==> exists k :: AcceptsAfter(cfg, ClonesOf(st, lines), store, k, t, fuel, stop))
                         && (!stop && (exists k :: AcceptsAfter(cfg, ClonesOf(st, lines), store, k, t, fuel, stop)) ==> t in r.texts)
    decreases fuel, 2, |lines| + 1
  {
    var clones := ClonesOf(st, lines);
    assert AllWf(clones, store) by {
      forall k | 0 <= k < |clones| ensures Wf(clones[k], store) {
        ClonesDiffer(st, store, lines, k);
      }
    }
    ExploreAccepts(cfg, clones, store, t, fuel, stop);
  }

  /** Searching a single state accepts what that state accepts. */
  lemma {:induction false} OnlyFirst(cfg: Config, states: seq<State>, store: Store, t: string, fuel: nat, stop: bool)
    requires |states| == 1 && AllWf(states, store)
    ensures (exists k :: AcceptsAfter(cfg, states, store, k, t, fuel, stop)) <==> Accepts(cfg, states[0], store, t, fuel, stop)
  {
    FirstAfter(cfg, states, store, t, fuel, stop);
  }

  /** The first state starts from the store as it is. */
  lemma {:induction false} FirstAfter(cfg: Config, states: seq<State>, store: Store, t: string, fuel: nat, stop: bool)
    requires |states| > 0 && AllWf(states, store)
    ensures AcceptsAfter(cfg, states, store, 0, t, fuel, stop) <==> Accepts(cfg, states[0], store, t, fuel, stop)
  {
    assert states[..0] == [];
    assert Explore(cfg, states[..0], store, fuel, stop) == Found([], store, NoStats);
  }

  /**
   * The `for temp in temps` loop yields what the states accept, each from the store its
   * predecessors leave: every text some state accepts, without `stop`, and only those.
   */
  lemma {:induction false} ExploreAccepts(cfg: Config, states: seq<State>, store: Store, t: string, fuel: nat, stop: bool)
    requires AllWf(states, store)
    ensures var r := Explore(cfg, states, store, fuel, stop);
            r.Found? ==> && (t in r.texts ==> exists k :: AcceptsAfter(cfg, states, store, k, t, fuel, stop))
                         && (!stop && (exists k :: AcceptsAfter(cfg, states, store, k, t, fuel, stop)) ==> t in r.texts)
    decreases fuel, 2, |states|
  {
    var r := Explore(cfg, states, store, fuel, stop);
    if |states| > 0 && r.Found? {
      var first := StateIncrement(cfg, states[0], store, fuel, stop);
      SearchAccepts(cfg, states[0], store, t, fuel, stop);
      FirstAfter(cfg, states, store, t, fuel, stop);
      if stop && |first.texts| > 0 {
        assert r == first;
      } else {
        var s := first.store;
        assert AllWf(states[1..], s) by {
          forall k | 0 <= k < |states[1..]| ensures Wf(states[1..][k], s) {
            assert Wf(states[k + 1], store);
          }
        }
        var rest := Explore(cfg, states[1..], s, fuel, stop);
        ExploreAccepts(cfg, states[1..], s, t, fuel, stop);
        assert r.texts == first.texts + rest.texts;
        if t in rest.texts {
          var k :| AcceptsAfter(cfg, states[1..], s, k, t, fuel, stop);
          AfterShift(cfg, states, store, k + 1, t, fuel, stop);
        }
        if !stop && (exists k :: AcceptsAfter(cfg, states, store, k, t, fuel, stop)) {
          var k :| AcceptsAfter(cfg, states, store, k, t, fuel, stop);
          if k > 0 {
            AfterShift(cfg, states, store, k, t, fuel, stop);
          }
        }
      }
    }
  }

  /** Past the first state, state `k` starts from the store the later states' search
      leaves, the first state's search having ended without stopping. */
  lemma {:induction false} AfterShift(cfg: Config, states: seq<State>, store: Store, k: nat, t: string, fuel: nat, stop: bool)
    requires AllWf(states, store) && 0 < k < |states|
    requires var first := StateIncrement(cfg, states[0], store, fuel, stop);
             first.Found? && !(stop && |first.texts| > 0)
    ensures var first := StateIncrement(cfg, states[0], store, fuel, stop);
            AllWf(states[1..], first.store)
            && (AcceptsAfter(cfg, states, store, k, t, fuel, stop) <==> AcceptsAfter(cfg, states[1..], first.store, k - 1, t, fuel, stop))
  {
    var first := StateIncrement(cfg, states[0], store, fuel, stop);
    var s := first.store;
    assert AllWf(states[1..], s) by {
      forall j | 0 <= j < |states[1..]| ensures Wf(states[1..][j], s) {
        assert Wf(states[j + 1], store);
      }
    }
    var front := states[..k];
    assert front[0] == states[0] && front[1..] == states[1..][..k - 1];
    assert AllWf(front, store);
    assert AllWf(states[1..][..k - 1], s);
    var pre := Explore(cfg, front, store, fuel, stop);
    var pre' := Explore(cfg, states[1..][..k - 1], s, fuel, stop);
    assert pre.Found? <==> pre'.Found?;
    assert pre.Found? ==> pre.store == pre'.store;
    assert states[k] == states[1..][k - 1];
  }

  // ------------------------------------------------------------ one interpreter per case

  /** One interpreter's search yields what the branches from its root state accept. */
  lemma {:induction false} PassedAccepts(cfg: Config, c: Case, src: string, t: string, fuel: nat, stop: bool)
    ensures var r := Passed(cfg, c, src, fuel, stop);
            var root, store := RootState(c, src), RootStore(c);
            r.Found? ==> && (t in r.texts ==> Accepts(cfg, root, store, t, fuel, stop))
                         && (!stop && Accepts(cfg, root, store, t, fuel, stop) ==> t in r.texts)
  {
    assert Wf(RootState(c, src), RootStore(c));
    SearchAccepts(cfg, RootState(c, src), RootStore(c), t, fuel, stop);
  }

  /** `t` passes cases k.. from `src`: each case accepts a program from the one before, and
      the last case accepts `t` (stopping at its first). */
  ghost predicate AcceptedThrough(cfg: Config, fuel: nat, cases: seq<Case>, k: nat, src: string, t: string)
    requires k < |cases|
    decreases |cases| - k
  {
    var root, store := RootState(cases[k], src), RootStore(cases[k]);
    if k == |cases| - 1 then Accepts(cfg, root, store, t, fuel, true)
    else exists mid :: Accepts(cfg, root, store, mid, fuel, false) && AcceptedThrough(cfg, fuel, cases, k + 1, mid, t)
  }

  /** Every text the chained interpreters reach is accepted, case after case. */
  lemma {:induction false} ReachesAccepted(cfg: Config, fuel: nat, cases: seq<Case>, k: nat, src: string, t: string)
    requires k < |cases| && Reaches(Searches(cfg, fuel), cases, k, src, t)
    ensures AcceptedThrough(cfg, fuel, cases, k, src, t)
    decreases |cases| - k
  {
    var final := k == |cases| - 1;
    var s := Searches(cfg, fuel)(cases[k], src, final);
    assert s == Passed(cfg, cases[k], src, fuel, final);
    if final {
      PassedAccepts(cfg, cases[k], src, t, fuel, true);
    } else {
      var mid :| mid in s.texts && Reaches(Searches(cfg, fuel), cases, k + 1, mid, t);
      PassedAccepts(cfg, cases[k], src, mid, fuel, false);
      ReachesAccepted(cfg, fuel, cases, k + 1, mid, t);
    }
  }
}
