/**
 * Slot resolution and the depth-first search over candidate programs (cold/cold.py, class
 * Interpreter: `input_eval`, `product`, `replacer`, `state_increment`).
 *
 * A line that still holds bracketed slots such as `add [i] [c] [o]` is replaced by one clone
 * of the state per way of filling its slots; a concrete line is executed. The search is a
 * generator in the program; here it is a function that returns the programs it would yield,
 * in order, together with the variable store it leaves behind and the counter increments it
 * makes. A fuel bound stands for the recursion limit the program would eventually hit on a
 * candidate that loops.
 */
module ColdSearch {
  import opened Wrappers
  import opened Text
  import opened Instructions
  import opened ColdVm

  /** The parts of the job the search reads: its constants and the `var_shadow` window. */
  datatype Config = Config(constants: seq<int>, varShadow: int)

  /** Increments of `stat_states`, `stat_runs`, `stat_failed` and `stat_unfinished`. */
  datatype Stats = Stats(states: nat, runs: nat, failed: nat, unfinished: nat)

  const NoStats := Stats(0, 0, 0, 0)

  function AddStats(a: Stats, b: Stats): Stats {
    Stats(a.states + b.states, a.runs + b.runs, a.failed + b.failed, a.unfinished + b.unfinished)
  }

  // ---------------------------------------------------------- slot domains

  /** The names of `d`, in insertion order, of the variables first set at most `shadow` lines
      before the code pointer `cp`. */
  function Visible(d: seq<Binding>, store: Store, cp: int, shadow: int): (r: seq<string>)
    requires RefsIn(d, |store|)
    ensures forall x :: x in r <==> exists k :: 0 <= k < |d| && d[k].name == x && cp - store[d[k].ref].lastSet <= shadow
  {
    if |d| == 0 then []
    else
      var rest := Visible(d[1..], store, cp, shadow);
      assert forall k :: 1 <= k < |d| ==> d[k] == d[1..][k - 1];
      (if cp - store[d[0].ref].lastSet <= shadow then [d[0].name] else []) + rest
  }

  function ConstantTexts(cs: seq<int>): (r: seq<string>)
    ensures |r| == |cs| && forall k :: 0 <= k < |cs| ==> r[k] == IntToString(cs[k])
  {
    if |cs| == 0 then [] else [IntToString(cs[0])] + ConstantTexts(cs[1..])
  }

  /** What one `|`-separated alternative of a slot stands for; None where the program raises. */
  function AltDomain(cfg: Config, st: State, store: Store, rep: string): Option<seq<string>>
    requires Wf(st, store)
  {
    if rep == "c" then Some(ConstantTexts(cfg.constants))
    else if rep == "o" then Some(Visible(st.outputs, store, st.codePointer, cfg.varShadow))
    else if |rep| == 0 then None
    else if rep[0] == 'i' then Some(Visible(st.inputs, store, st.codePointer, cfg.varShadow))
    else if rep == "cmp" then Some(["==", "!="])
    else None
  }

  function AltsDomain(cfg: Config, st: State, store: Store, reps: seq<string>): Option<seq<string>>
    requires Wf(st, store)
  {
    if |reps| == 0 then Some([])
    else match AltDomain(cfg, st, store, reps[0])
      case None => None
      case Some(a) =>
        match AltsDomain(cfg, st, store, reps[1..])
        case None => None
        case Some(b) => Some(a + b)
  }

  /** `input_eval`: the texts a slot can be filled with, every alternative's in turn. */
  function InputEval(cfg: Config, st: State, store: Store, val: string): Option<seq<string>>
    requires Wf(st, store)
  {
    AltsDomain(cfg, st, store, Split(val, "|"))
  }

  /** Every alternative of the list is understood. */
  predicate AltsKnown(cfg: Config, st: State, store: Store, reps: seq<string>)
    requires Wf(st, store)
  {
    forall j :: 0 <= j < |reps| ==> AltDomain(cfg, st, store, reps[j]).Some?
  }

  /** A slot's domain is defined exactly when every alternative is understood, and then holds
      exactly the texts some alternative stands for. */
  lemma {:induction false} AltsDomainMembers(cfg: Config, st: State, store: Store, reps: seq<string>)
    requires Wf(st, store)
    ensures AltsDomain(cfg, st, store, reps).Some? <==> AltsKnown(cfg, st, store, reps)
    ensures AltsDomain(cfg, st, store, reps).Some? ==>
              forall x :: x in AltsDomain(cfg, st, store, reps).value <==>
                exists j :: 0 <= j < |reps| && x in AltDomain(cfg, st, store, reps[j]).value
  {
    if |reps| > 0 {
      AltsDomainMembers(cfg, st, store, reps[1..]);
      assert forall j :: 1 <= j < |reps| ==> reps[j] == reps[1..][j - 1];
      if AltDomain(cfg, st, store, reps[0]).Some? && AltsDomain(cfg, st, store, reps[1..]).Some? {
        var a := AltDomain(cfg, st, store, reps[0]).value;
        forall x | x in AltsDomain(cfg, st, store, reps).value
          ensures exists j :: 0 <= j < |reps| && x in AltDomain(cfg, st, store, reps[j]).value
        {
          if x in a {
            assert x in AltDomain(cfg, st, store, reps[0]).value;
          } else {
            var j :| 0 <= j < |reps[1..]| && x in AltDomain(cfg, st, store, reps[1..][j]).value;
            assert x in AltDomain(cfg, st, store, reps[j + 1]).value;
          }
        }
        forall x | exists j :: 0 <= j < |reps| && x in AltDomain(cfg, st, store, reps[j]).value
          ensures x in AltsDomain(cfg, st, store, reps).value
        {
          var j :| 0 <= j < |reps| && x in AltDomain(cfg, st, store, reps[j]).value;
          if j > 0 {
            assert x in AltDomain(cfg, st, store, reps[1..][j - 1]).value;
          }
        }
      } else if AltDomain(cfg, st, store, reps[0]).None? {
        assert !AltsKnown(cfg, st, store, reps);
      } else {
        var j :| 0 <= j < |reps[1..]| && AltDomain(cfg, st, store, reps[1..][j]).None?;
        assert AltDomain(cfg, st, store, reps[j + 1]).None?;
      }
    }
  }

  /** The domain of an output slot `[o]` is exactly the outputs within the shadow window. */
  lemma {:induction false} OutputSlotDomain(cfg: Config, st: State, store: Store, x: string)
    requires Wf(st, store)
    ensures InputEval(cfg, st, store, "o").Some?
    ensures x in InputEval(cfg, st, store, "o").value <==>
              exists k :: 0 <= k < |st.outputs| && st.outputs[k].name == x
                && st.codePointer - store[st.outputs[k].ref].lastSet <= cfg.varShadow
  {
    assert "o"[0..] == "o" && "|"[0] != "o"[0];
    SplitWhole("o", "|", "");
    assert "" + "o" == "o";
    assert Split("o", "|") == ["o"];
    assert ["o"][1..] == [];
    var v := Visible(st.outputs, store, st.codePointer, cfg.varShadow);
    assert "o" != "c";
    assert AltDomain(cfg, st, store, "o") == Some(v);
    assert AltsDomain(cfg, st, store, ["o"][1..]) == Some([]);
    assert v + [] == v;
    assert AltsDomain(cfg, st, store, ["o"]) == Some(v);
  }

  // ------------------------------------------------------ cartesian product

  /** `Interpreter.product`: every combination extended by every right-hand choice, the
      right-hand choice varying fastest. */
  function Product(left: seq<seq<string>>, right: seq<string>): (r: seq<seq<string>>)
    ensures |r| == |left| * |right|
  {
    if |left| == 0 then []
    else
      var here := seq(|right|, b requires 0 <= b < |right| => left[0] + [right[b]]);
      here + Product(left[1..], right)
  }

  /** Every combination has `n` entries. */
  predicate AllLen(xs: seq<seq<string>>, n: nat) {
    forall k :: 0 <= k < |xs| ==> |xs[k]| == n
  }

  lemma {:induction false} ProductLen(left: seq<seq<string>>, right: seq<string>, n: nat)
    requires AllLen(left, n)
    ensures AllLen(Product(left, right), n + 1)
  {
    if |left| > 0 {
      ProductLen(left[1..], right, n);
    }
  }

  /** The combinations the replacer builds for the chosen slots' domains, in order: the first
      slot's options as one-element tuples, then one `product` per further slot. */
  function Combos(opts: seq<seq<string>>): (r: seq<seq<string>>)
    requires |opts| > 0
    ensures AllLen(r, |opts|)
    decreases |opts|
  {
    if |opts| == 1 then seq(|opts[0]|, k requires 0 <= k < |opts[0]| => [opts[0][k]])
    else
      var left := Combos(opts[..|opts| - 1]);
      ProductLen(left, opts[|opts| - 1], |opts| - 1);
      Product(left, opts[|opts| - 1])
  }

  /** `c` picks one option of every slot. */
  predicate Picks(c: seq<string>, opts: seq<seq<string>>) {
    |c| == |opts| && forall k :: 0 <= k < |c| ==> c[k] in opts[k]
  }

  /** A combination of the product is a left-hand combination extended by a right-hand choice. */
  lemma {:induction false} ProductMembers(left: seq<seq<string>>, right: seq<string>, c: seq<string>)
    requires |c| > 0
    ensures c in Product(left, right) <==> c[..|c| - 1] in left && c[|c| - 1] in right
  {
    if |left| > 0 {
      var here := seq(|right|, b requires 0 <= b < |right| => left[0] + [right[b]]);
      ProductMembers(left[1..], right, c);
      assert Product(left, right) == here + Product(left[1..], right);
      if c in here {
        var b :| 0 <= b < |right| && here[b] == c;
        assert c[..|c| - 1] == left[0];
      }
      if c[..|c| - 1] == left[0] && c[|c| - 1] in right {
        var b :| 0 <= b < |right| && right[b] == c[|c| - 1];
        assert here[b] == c;
      }
      assert c[..|c| - 1] in left <==> c[..|c| - 1] == left[0] || c[..|c| - 1] in left[1..];
    }
  }

  /** The combinations are exactly the ways of picking one option per slot. */
  lemma {:induction false} CombosMembers(opts: seq<seq<string>>, c: seq<string>)
    requires |opts| > 0
    ensures c in Combos(opts) <==> Picks(c, opts)
    decreases |opts|
  {
    var r := Combos(opts);
    if |opts| == 1 {
      if c in r {
        var k :| 0 <= k < |r| && r[k] == c;
        assert c[0] == opts[0][k];
      }
      if Picks(c, opts) {
        var k :| 0 <= k < |opts[0]| && opts[0][k] == c[0];
        assert r[k] == c;
      }
    } else {
      var front := opts[..|opts| - 1];
      if |c| > 0 {
        ProductMembers(Combos(front), opts[|opts| - 1], c);
        CombosMembers(front, c[..|c| - 1]);
        if Picks(c[..|c| - 1], front) && c[|c| - 1] in opts[|opts| - 1] {
          assert Picks(c, opts) by {
            forall k | 0 <= k < |c| ensures c[k] in opts[k] {
              if k < |c| - 1 {
                assert c[..|c| - 1][k] == c[k];
              }
            }
          }
        }
        if Picks(c, opts) {
          assert Picks(c[..|c| - 1], front) by {
            forall k | 0 <= k < |c| - 1 ensures c[..|c| - 1][k] in front[k] {
              assert c[..|c| - 1][k] == c[k];
            }
          }
        }
      }
    }
  }

  // ------------------------------------------------------------ replacer

  predicate IsBracket(c: char) {
    c == '[' || c == ']'
  }

  /** The replacer's scan: the text cut at every `[` and every `]`; odd parts are slots. */
  function Parts(code: string): (r: seq<string>)
    ensures |r| >= 1
    ensures |r| == 1 <==> forall k :: 0 <= k < |code| ==> !IsBracket(code[k])
  {
    if |code| == 0 then [""]
    else
      var rest := Parts(code[1..]);
      assert forall k :: 1 <= k < |code| ==> code[k] == code[1..][k - 1];
      if IsBracket(code[0]) then [""] + rest
      else [[code[0]] + rest[0]] + rest[1..]
  }

  /** A slot the replacer fills: its text starts with one of `i`, `v`, `o`, `c`. */
  predicate Chosen(part: string) {
    |part| > 0 && (part[0] == 'i' || part[0] == 'v' || part[0] == 'o' || part[0] == 'c')
  }

  /** The chosen slots, their domains, or how collecting them ends early. */
  datatype Doms = Doms(slots: seq<nat>, options: seq<seq<string>>) | DomsImpossible | DomsCrash

  /** The loop over the slots `i, i+2, …`: chosen slots get their domain; an empty slot text
      raises IndexError and an empty domain ImpossibleProgramException, whichever comes first. */
  function Domains(cfg: Config, st: State, store: Store, parts: seq<string>, i: nat): (r: Doms)
    requires Wf(st, store)
    ensures r.Doms? ==> |r.slots| == |r.options|
    ensures r.Doms? ==> forall k :: 0 <= k < |r.slots| ==> i <= r.slots[k] < |parts| && Chosen(parts[r.slots[k]])
    ensures r.Doms? ==> forall k :: 0 <= k < |r.options| ==> |r.options[k]| > 0
    decreases |parts| - i
  {
    if i >= |parts| then Doms([], [])
    else if |parts[i]| == 0 then DomsCrash
    else if !Chosen(parts[i]) then Domains(cfg, st, store, parts, i + 2)
    else
      match InputEval(cfg, st, store, parts[i])
      case None => DomsCrash
      case Some(opts) =>
        if |opts| == 0 then DomsImpossible
        else
          match Domains(cfg, st, store, parts, i + 2)
          case Doms(s, o) => Doms([i] + s, [opts] + o)
          case other => other
  }

  /** `parts` with slot `slots[k]` replaced by `combo[k]`. */
  function Fill(parts: seq<string>, slots: seq<nat>, combo: seq<string>): (r: seq<string>)
    requires |slots| == |combo|
    requires forall k :: 0 <= k < |slots| ==> slots[k] < |parts|
    ensures |r| == |parts|
  {
    if |slots| == 0 then parts
    else Fill(parts, slots[1..], combo[1..])[slots[0] := combo[0]]
  }

  function Concat(parts: seq<string>): string {
    if |parts| == 0 then "" else parts[0] + Concat(parts[1..])
  }

  /** What the replacer does with the current line. */
  datatype Repl =
    | Keep                          // returned [state]: the line is `[ret]` or has no slots
    | Clones(lines: seq<Instruction>)  // one clone per surviving filled line
    | ReplImpossible                // raised ImpossibleProgramException
    | ReplCrash                     // raised anything else

  /** The candidate lines for one combination of slot fills, in combination order. */
  function Candidates(parts: seq<string>, slots: seq<nat>, opts: seq<seq<string>>): (r: seq<Instruction>)
    requires |slots| == |opts| > 0
    requires forall k :: 0 <= k < |slots| ==> slots[k] < |parts|
  {
    var cs := Combos(opts);
    seq(|cs|, k requires 0 <= k < |cs| => Parse(Concat(Fill(parts, slots, cs[k]))))
  }

  /**
   * `Interpreter.replacer`, up to the clones: the line's filled variants after pruning.
   * A line with slots none of which is chosen leaves the combinations at None and the loop
   * over them raises TypeError; pruning raises IndexError on a filled line without the
   * operands `fhash` reads.
   */
  function Replacer(cfg: Config, st: State, store: Store): (r: Repl)
    requires Wf(st, store) && AtLine(st)
  {
    var code := st.lines[st.codePointer].code;
    if code == "[ret]" then Keep
    else
      var parts := Parts(code);
      if |parts| == 1 then Keep
      else
        match Domains(cfg, st, store, parts, 1)
        case DomsCrash => ReplCrash
        case DomsImpossible => ReplImpossible
        case Doms(slots, opts) =>
          if |slots| == 0 then ReplCrash
          else
            var lines := Candidates(parts, slots, opts);
            if !AllHaveOperands(lines) then ReplCrash
            else Clones(KeptFrom(lines, 0))
  }

  /** The states the replacer hands back: a copy of `st` per line, with that line at the code
      pointer. */
  function ClonesOf(st: State, lines: seq<Instruction>): (r: seq<State>)
    requires AtLine(st)
  {
    seq(|lines|, k requires 0 <= k < |lines| => st.(lines := st.lines[st.codePointer := lines[k]]))
  }

  /** Each clone differs from the state it was made from only in the line at the code pointer,
      and shares its variables. */
  lemma {:induction false} ClonesDiffer(st: State, store: Store, lines: seq<Instruction>, k: int)
    requires Wf(st, store) && AtLine(st) && 0 <= k < |lines|
    ensures var c := ClonesOf(st, lines)[k];
            && |c.lines| == |st.lines|
            && c.lines[st.codePointer] == lines[k]
            && (forall j :: 0 <= j < |st.lines| && j != st.codePointer ==> c.lines[j] == st.lines[j])
            && c.(lines := st.lines) == st
            && Wf(c, store) && AtLine(c)
  {
  }

  /** A clone made from a line whose parameters are words keeps the names scoped and the
      lines parsed. */
  lemma {:induction false} ClonesKeepScoped(st: State, lines: seq<Instruction>, k: int)
    requires AtLine(st) && 0 <= k < |lines| && ScopedNames(st) && WordLines(st.lines)
    requires Words(lines[k].params)
    ensures ScopedNames(ClonesOf(st, lines)[k]) && WordLines(ClonesOf(st, lines)[k].lines)
  {
    var c := ClonesOf(st, lines)[k];
    assert c.inputs == st.inputs && c.outputs == st.outputs && c.locals == st.locals;
    forall j | 0 <= j < |c.lines| ensures Words(c.lines[j].params) {
      if j != st.codePointer {
        assert c.lines[j] == st.lines[j];
      }
    }
  }

  /** Every line the replacer hands back is parsed from its filled text. */
  lemma {:induction false} ReplacerWords(cfg: Config, st: State, store: Store)
    requires Wf(st, store) && AtLine(st)
    requires Replacer(cfg, st, store).Clones?
    ensures var r := Replacer(cfg, st, store).lines;
            forall n :: 0 <= n < |r| ==> Words(r[n].params)
  {
    var parts := Parts(st.lines[st.codePointer].code);
    var d := Domains(cfg, st, store, parts, 1);
    ReplacerShape(cfg, st, store);
    var lines := Candidates(parts, d.slots, d.options);
    var r := Replacer(cfg, st, store).lines;
    forall n | 0 <= n < |r| ensures Words(r[n].params) {
      KeptFromOrigin(lines, 0, n);
    }
  }

  /** A slot the loop in `Domains` gets past: a chosen slot with a non-empty domain or a slot
      that is not chosen. */
  predicate SlotPasses(cfg: Config, st: State, store: Store, part: string)
    requires Wf(st, store)
  {
    |part| > 0 && (Chosen(part) ==> InputEval(cfg, st, store, part).Some? && |InputEval(cfg, st, store, part).value| > 0)
  }

  predicate SlotEmpty(cfg: Config, st: State, store: Store, part: string)
    requires Wf(st, store)
  {
    Chosen(part) && InputEval(cfg, st, store, part) == Some([])
  }

  /** Slot number `m` counted from `i` in steps of two. */
  function SlotAt(parts: seq<string>, i: nat, m: nat): string
    requires i + 2 * m < |parts|
  {
    parts[i + 2 * m]
  }

  /** The slots from `i` on before slot number `m` all pass. */
  predicate PassUpTo(cfg: Config, st: State, store: Store, parts: seq<string>, i: nat, m: nat)
    requires Wf(st, store)
  {
    forall n: nat :: n < m && i + 2 * n < |parts| ==> SlotPasses(cfg, st, store, SlotAt(parts, i, n))
  }

  /** ImpossibleProgramException is raised exactly when some chosen slot has an empty domain
      and every slot before it passes. */
  lemma {:induction false} DomainsImpossible(cfg: Config, st: State, store: Store, parts: seq<string>, i: nat)
    requires Wf(st, store)
    ensures Domains(cfg, st, store, parts, i) == DomsImpossible <==>
              exists m: nat :: i + 2 * m < |parts| && SlotEmpty(cfg, st, store, SlotAt(parts, i, m))
                && PassUpTo(cfg, st, store, parts, i, m)
  {
    if Domains(cfg, st, store, parts, i) == DomsImpossible {
      ImpossibleWitness(cfg, st, store, parts, i);
    }
    if exists m: nat :: i + 2 * m < |parts| && SlotEmpty(cfg, st, store, SlotAt(parts, i, m))
                   && PassUpTo(cfg, st, store, parts, i, m) {
      var m: nat :| i + 2 * m < |parts| && SlotEmpty(cfg, st, store, SlotAt(parts, i, m))
               && PassUpTo(cfg, st, store, parts, i, m);
      WitnessImpossible(cfg, st, store, parts, i, m);
    }
  }

  /** A loop that raised ImpossibleProgramException met an empty slot after passing ones. */
  lemma {:induction false} ImpossibleWitness(cfg: Config, st: State, store: Store, parts: seq<string>, i: nat)
    requires Wf(st, store) && Domains(cfg, st, store, parts, i) == DomsImpossible
    ensures exists m: nat :: i + 2 * m < |parts| && SlotEmpty(cfg, st, store, SlotAt(parts, i, m))
              && PassUpTo(cfg, st, store, parts, i, m)
    decreases |parts| - i
  {
    assert SlotAt(parts, i, 0) == parts[i];
    if SlotEmpty(cfg, st, store, parts[i]) {
      assert PassUpTo(cfg, st, store, parts, i, 0);
    } else {
      assert SlotPasses(cfg, st, store, parts[i]);
      assert Domains(cfg, st, store, parts, i + 2) == DomsImpossible;
      ImpossibleWitness(cfg, st, store, parts, i + 2);
      var m: nat :| i + 2 + 2 * m < |parts| && SlotEmpty(cfg, st, store, SlotAt(parts, i + 2, m))
            && PassUpTo(cfg, st, store, parts, i + 2, m);
      assert SlotAt(parts, i, m + 1) == SlotAt(parts, i + 2, m);
      assert PassUpTo(cfg, st, store, parts, i, m + 1) by {
        forall n: nat | n < m + 1 && i + 2 * n < |parts|
          ensures SlotPasses(cfg, st, store, SlotAt(parts, i, n))
        {
          if n > 0 {
            assert SlotAt(parts, i, n) == SlotAt(parts, i + 2, n - 1);
          }
        }
      }
    }
  }

  /** An empty chosen slot after passing ones makes the loop raise ImpossibleProgramException. */
  lemma {:induction false} WitnessImpossible(cfg: Config, st: State, store: Store, parts: seq<string>, i: nat, m: nat)
    requires Wf(st, store) && i + 2 * m < |parts|
    requires SlotEmpty(cfg, st, store, SlotAt(parts, i, m)) && PassUpTo(cfg, st, store, parts, i, m)
    ensures Domains(cfg, st, store, parts, i) == DomsImpossible
    decreases m
  {
    if m > 0 {
      assert SlotAt(parts, i, 0) == parts[i];
      assert SlotPasses(cfg, st, store, parts[i]);
      assert SlotAt(parts, i + 2, m - 1) == SlotAt(parts, i, m);
      assert PassUpTo(cfg, st, store, parts, i + 2, m - 1) by {
        forall n: nat | n < m - 1 && i + 2 + 2 * n < |parts|
          ensures SlotPasses(cfg, st, store, SlotAt(parts, i + 2, n))
        {
          assert SlotAt(parts, i + 2, n) == SlotAt(parts, i, n + 1);
        }
      }
      WitnessImpossible(cfg, st, store, parts, i + 2, m - 1);
    } else {
      assert SlotAt(parts, i, 0) == parts[i];
    }
  }

  /** Every line the replacer hands back fills each chosen slot from that slot's domain; no
      two have the same canonical form and none compares a token with itself. */
  lemma {:induction false} ReplacerClones(cfg: Config, st: State, store: Store)
    requires Wf(st, store) && AtLine(st)
    requires Replacer(cfg, st, store).Clones?
    ensures var parts := Parts(st.lines[st.codePointer].code);
            var d := Domains(cfg, st, store, parts, 1);
            var r := Replacer(cfg, st, store).lines;
            && d.Doms? && |d.slots| > 0
            && (forall n :: 0 <= n < |r| ==> FromCombo(parts, d.slots, d.options, r[n]))
            && (forall n :: 0 <= n < |r| ==> !IsDumb(r[n]))
            && (forall a, b :: 0 <= a < b < |r| ==> FHash(r[a]) != FHash(r[b]))
  {
    var parts := Parts(st.lines[st.codePointer].code);
    var d := Domains(cfg, st, store, parts, 1);
    ReplacerShape(cfg, st, store);
    var lines := Candidates(parts, d.slots, d.options);
    StripDumbInstructionsSound(lines);
    KeptCandidates(parts, d.slots, d.options);
  }

  /** The replacer's clones are the candidates kept by pruning. */
  lemma {:induction false} ReplacerShape(cfg: Config, st: State, store: Store)
    requires Wf(st, store) && AtLine(st)
    requires Replacer(cfg, st, store).Clones?
    ensures var parts := Parts(st.lines[st.codePointer].code);
            var d := Domains(cfg, st, store, parts, 1);
            && d.Doms? && |d.slots| > 0
            && AllHaveOperands(Candidates(parts, d.slots, d.options))
            && Replacer(cfg, st, store).lines == KeptFrom(Candidates(parts, d.slots, d.options), 0)
  {
  }

  /** `x` is the line the slots filled by some combination of the domains give. */
  ghost predicate FromCombo(parts: seq<string>, slots: seq<nat>, opts: seq<seq<string>>, x: Instruction)
    requires |slots| == |opts|
    requires forall k :: 0 <= k < |slots| ==> slots[k] < |parts|
  {
    exists c :: Picks(c, opts) && x == Parse(Concat(Fill(parts, slots, c)))
  }

  /** Every kept candidate fills the slots with one combination of the domains. */
  lemma {:induction false} KeptCandidates(parts: seq<string>, slots: seq<nat>, opts: seq<seq<string>>)
    requires |slots| == |opts| > 0
    requires forall k :: 0 <= k < |slots| ==> slots[k] < |parts|
    requires AllHaveOperands(Candidates(parts, slots, opts))
    ensures var r := KeptFrom(Candidates(parts, slots, opts), 0);
      forall n :: 0 <= n < |r| ==> FromCombo(parts, slots, opts, r[n])
  {
    var lines := Candidates(parts, slots, opts);
    var r := KeptFrom(lines, 0);
    forall n | 0 <= n < |r|
      ensures FromCombo(parts, slots, opts, r[n])
    {
      KeptFromOrigin(lines, 0, n);
      var j :| 0 <= j < |lines| && Kept(lines, j) && r[n] == lines[j];
      var c := Combos(opts)[j];
      assert c in Combos(opts);
      CombosMembers(opts, c);
      assert lines[j] == Parse(Concat(Fill(parts, slots, c)));
    }
  }

  // -------------------------------------------------------------- search

  /** How a search ends: the programs it yielded, or a raised exception, or out of fuel. */
  datatype Search = Found(texts: seq<string>, store: Store, stats: Stats) | SearchCrash | OutOfFuel

  predicate AllWf(states: seq<State>, store: Store) {
    forall k :: 0 <= k < |states| ==> Wf(states[k], store)
  }

  /**
   * `Interpreter.state_increment`: a concrete line (or `[ret]`) is executed first; a return
   * ends the branch and yields the code when the value is the expected one; a failure ends
   * it; otherwise the code pointer moves on and the replacer's states are searched in turn.
   * With `stop` set the search ends at the first program yielded (the caller's `break`).
   */
  function StateIncrement(cfg: Config, st: State, store: Store, fuel: nat, stop: bool): (r: Search)
    requires Wf(st, store)
    ensures r.Found? ==> |r.store| >= |store|
    ensures r.Found? ==> |r.texts| <= r.stats.runs
    ensures r.Found? && stop ==> |r.texts| <= 1
    decreases fuel, 1, 0
  {
    if fuel == 0 then OutOfFuel
    else if st.ended then Found([], store, NoStats)
    else if !AtLine(st) then SearchCrash
    else
      var code := st.lines[st.codePointer].code;
      if code == "[ret]" || !Contains(code, "[") then Stepped(cfg, st, store, fuel, stop)
      else Branch(cfg, st, store, fuel - 1, stop)
  }

  /** The concrete line executed: a return ends the branch and yields the code when the value
      is the expected one, a failure ends it, otherwise the code pointer moves on and the
      search branches from there. */
  function Stepped(cfg: Config, st: State, store: Store, fuel: nat, stop: bool): (r: Search)
    requires Wf(st, store) && AtLine(st) && fuel > 0
    ensures r.Found? ==> |r.store| >= |store|
    ensures r.Found? ==> |r.texts| <= r.stats.runs
    ensures r.Found? && stop ==> |r.texts| <= 1
    decreases fuel, 0, 0
  {
    match Execute(st, store)
    case Crash => SearchCrash
    case Failed => Found([], store, NoStats.(failed := 1))
    case Return(st', store') =>
      Found(if st'.retval == st.expected then [AllCode(st'.lines)] else [], store', NoStats.(runs := 1))
    case Continue(st', store', jump) =>
      var next := st'.(codePointer := if jump.Some? then jump.value else st'.codePointer + 1);
      Branch(cfg, next, store', fuel - 1, stop)
  }

  /** The replacer's part of `state_increment`, then the search of every state it returns. */
  function Branch(cfg: Config, st: State, store: Store, fuel: nat, stop: bool): (r: Search)
    requires Wf(st, store)
    ensures r.Found? ==> |r.store| >= |store|
    ensures r.Found? ==> |r.texts| <= r.stats.runs
    ensures r.Found? && stop ==> |r.texts| <= 1
    decreases fuel, 3, 0
  {
    if !AtLine(st) then SearchCrash
    else
      match Replacer(cfg, st, store)
      case ReplCrash => SearchCrash
      case ReplImpossible => Found([], store, NoStats.(unfinished := 1))
      case Keep => Explore(cfg, [st], store, fuel, stop)
      case Clones(lines) =>
        var clones := ClonesOf(st, lines);
        assert forall k :: 0 <= k < |clones| ==> Wf(clones[k], store) by {
          forall k | 0 <= k < |clones| ensures Wf(clones[k], store) {
            ClonesDiffer(st, store, lines, k);
          }
        }
        match Explore(cfg, clones, store, fuel, stop)
        case Found(t, s, d) => Found(t, s, d.(states := d.states + |lines|))
        case other => other
  }

  /** The `for temp in temps` loop: each state's search in turn, on the store the previous
      ones left behind. */
  function Explore(cfg: Config, states: seq<State>, store: Store, fuel: nat, stop: bool): (r: Search)
    requires AllWf(states, store)
    ensures r.Found? ==> |r.store| >= |store|
    ensures r.Found? ==> |r.texts| <= r.stats.runs
    ensures r.Found? && stop ==> |r.texts| <= 1
    decreases fuel, 2, |states|
  {
    if |states| == 0 then Found([], store, NoStats)
    else
      var first := StateIncrement(cfg, states[0], store, fuel, stop);
      if !first.Found? then first
      else if stop && |first.texts| > 0 then first
      else
        var s := first.store;
        assert AllWf(states[1..], s) by {
          forall k | 0 <= k < |states[1..]| ensures Wf(states[1..][k], s) {
            assert Wf(states[k + 1], store);
          }
        }
        var rest := Explore(cfg, states[1..], s, fuel, stop);
        if !rest.Found? then rest
        else Found(first.texts + rest.texts, rest.store, AddStats(first.stats, rest.stats))
  }
}
