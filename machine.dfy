/**
 * The synthesis engine's virtual machine (cold/cold.py, classes Var and State): one
 * candidate's lines, code pointer and the input, output and local variable dictionaries.
 *
 * `State.clone` copies the dictionaries shallowly, so sibling clones share the `Var`
 * objects that existed when they were cloned and an overwrite through one of them is seen
 * by the others. The model keeps that sharing: every `Var` an interpreter creates lives in a
 * `Store`, and a dictionary entry is a name together with the position of its cell there.
 */
module ColdVm {
  import opened Wrappers
  import opened Text
  import opened Instructions

  /** `Var`: a value cell; `lastSet` is the code pointer at the assignment that created it. */
  datatype Cell = Cell(name: string, val: int, lastSet: int)

  /** Every `Var` object of one interpreter, indexed by reference. */
  type Store = seq<Cell>

  /** One dictionary entry: a name and the `Var` it refers to. A dictionary is a sequence of
      entries in insertion order, which is the order Python iterates it in. */
  datatype Binding = Binding(name: string, ref: nat)

  /** `State`, without its back-pointer to the context (whose counters live in the search). */
  datatype State = State(
    lines: seq<Instruction>,
    codePointer: int,
    inputs: seq<Binding>,
    outputs: seq<Binding>,
    locals: seq<Binding>,
    labels: map<string, int>,
    expected: Option<int>,
    retval: Option<int>,
    ended: bool,
    linesExecuted: int)

  predicate RefsIn(d: seq<Binding>, n: nat) {
    forall k :: 0 <= k < |d| ==> d[k].ref < n
  }

  /** Every dictionary entry of `st` refers to a cell of `store`. */
  predicate Wf(st: State, store: Store) {
    RefsIn(st.inputs, |store|) && RefsIn(st.outputs, |store|) && RefsIn(st.locals, |store|)
  }

  predicate AtLine(st: State) {
    0 <= st.codePointer < |st.lines|
  }

  /** The position of the entry for `name` in a dictionary (Python's `name in d` / `d[name]`). */
  function IndexOf(d: seq<Binding>, name: string): (k: Option<nat>)
    ensures k.Some? ==> k.value < |d| && d[k.value].name == name
    ensures k.Some? ==> forall j :: 0 <= j < k.value ==> d[j].name != name
    ensures k.None? ==> forall j :: 0 <= j < |d| ==> d[j].name != name
  {
    if |d| == 0 then None
    else if d[0].name == name then Some(0)
    else match IndexOf(d[1..], name)
      case None => None
      case Some(j) => Some(j + 1)
  }

  /** `d[name].val`, or None where Python raises KeyError. */
  function ValueIn(d: seq<Binding>, store: Store, name: string): Option<int>
    requires RefsIn(d, |store|)
  {
    match IndexOf(d, name)
    case None => None
    case Some(k) => Some(store[d[k].ref].val)
  }

  /**
   * `evaluate` inside `State.execute`: an integer literal is itself; a token starting with
   * `l` is read from the locals; any other token from the inputs, or from the outputs when it
   * is not an input. None where Python raises.
   */
  function Evaluate(st: State, store: Store, token: string): Option<int>
    requires Wf(st, store)
  {
    match ParseInt(token)
    case Some(n) => Some(n)
    case None =>
      if |token| == 0 then None
      else if token[0] == 'l' then ValueIn(st.locals, store, token)
      else if IndexOf(st.inputs, token).Some? then ValueIn(st.inputs, store, token)
      else ValueIn(st.outputs, store, token)
  }

  datatype Scope = Input | Output | Local

  /** The dictionary a destination token is written to, chosen by its first character. */
  function ScopeOf(token: string): Option<Scope> {
    if |token| == 0 then None
    else if token[0] == 'l' then Some(Local)
    else if token[0] == 'i' then Some(Input)
    else if token[0] == 'o' then Some(Output)
    else None
  }

  function Dict(st: State, s: Scope): seq<Binding> {
    match s
    case Input => st.inputs
    case Output => st.outputs
    case Local => st.locals
  }

  function WithDict(st: State, s: Scope, d: seq<Binding>): State {
    match s
    case Input => st.(inputs := d)
    case Output => st.(outputs := d)
    case Local => st.(locals := d)
  }

  /**
   * `setvar`: an existing variable is overwritten in its shared cell, keeping its `lastSet`;
   * a new one gets a fresh cell whose `lastSet` is the current code pointer.
   */
  function SetVar(st: State, store: Store, token: string, val: int): Option<(State, Store)>
    requires Wf(st, store)
  {
    match ScopeOf(token)
    case None => None
    case Some(s) =>
      var d := Dict(st, s);
      match IndexOf(d, token)
      case Some(k) =>
        var r := d[k].ref;
        Some((st, store[r := store[r].(val := val)]))
      case None =>
        Some((WithDict(st, s, d + [Binding(token, |store|)]), store + [Cell(token, val, st.codePointer)]))
  }

  /** The first entry of `d`, in insertion order, whose value is `e`. */
  function FirstWithValue(d: seq<Binding>, store: Store, e: int): (k: Option<nat>)
    requires RefsIn(d, |store|)
    ensures k.Some? ==> k.value < |d| && store[d[k.value].ref].val == e
    ensures k.Some? ==> forall j :: 0 <= j < k.value ==> store[d[j].ref].val != e
    ensures k.None? ==> forall j :: 0 <= j < |d| ==> store[d[j].ref].val != e
  {
    if |d| == 0 then None
    else if store[d[0].ref].val == e then Some(0)
    else match FirstWithValue(d[1..], store, e)
      case None => None
      case Some(j) => Some(j + 1)
  }

  /**
   * `State.check_for_expected`: the name of the first output, else the first local, whose value
   * is the expected one (no visibility window applies here); None where Python raises
   * ProgramFailedException.
   */
  function CheckForExpected(st: State, store: Store): Option<string>
    requires Wf(st, store)
  {
    match st.expected
    case None => None
    case Some(e) =>
      match FirstWithValue(st.outputs, store, e)
      case Some(k) => Some(st.outputs[k].name)
      case None =>
        match FirstWithValue(st.locals, store, e)
        case Some(k) => Some(st.locals[k].name)
        case None => None
  }

  /** How one `State.execute` call ends. */
  datatype Exec =
    | Continue(state: State, store: Store, jump: Option<int>)  // returned None or a line index
    | Return(state: State, store: Store)                       // raised ReturnException
    | Failed                                                   // raised ProgramFailedException
    | Crash                                                    // raised anything else

  predicate IsLabel(code: string) {
    |code| > 0 && code[|code| - 1] == ':'
  }

  function Compare(op: string, left: int, right: int): Option<bool> {
    if op == "==" then Some(left == right)
    else if op == "!=" then Some(left != right)
    else if op == ">" then Some(left > right)
    else if op == "<" then Some(left < right)
    else None
  }

  function Arith(cmd: string, a: int, b: int): int {
    if cmd == "add" then a + b else a * b
  }

  /** add/mul: the sum or product of the first two operands is stored into the third. */
  function ExecArith(st: State, store: Store, cmd: string, ps: seq<string>): (r: Exec)
    requires Wf(st, store)
    ensures !r.Return? && !r.Failed?
    ensures r.Continue? ==> Wf(r.state, r.store) && r.state.lines == st.lines && |r.store| >= |store|
                            && r.state.codePointer == st.codePointer && r.jump.None?
  {
    if |ps| < 3 then Crash
    else
      var a, b := Evaluate(st, store, ps[0]), Evaluate(st, store, ps[1]);
      if a.None? || b.None? then Crash
      else
        SetVarFrame(st, store, ps[2], Arith(cmd, a.value, b.value));
        match SetVar(st, store, ps[2], Arith(cmd, a.value, b.value))
        case None => Crash
        case Some((st', store')) => Continue(st', store', None)
  }

  /** cmp a op b label: jump to the label when the comparison holds. */
  function ExecCmp(st: State, store: Store, ps: seq<string>): (r: Exec)
    requires Wf(st, store)
    ensures !r.Return? && !r.Failed?
    ensures r.Continue? ==> r.state == st && r.store == store
  {
    if |ps| < 3 then Crash
    else
      var left, right := Evaluate(st, store, ps[0]), Evaluate(st, store, ps[2]);
      if left.None? || right.None? then Crash
      else
        match Compare(ps[1], left.value, right.value)
        case None => Crash
        case Some(false) => Continue(st, store, None)
        case Some(true) =>
          if |ps| < 4 || ps[3] !in st.labels then Crash
          else Continue(st, store, Some(st.labels[ps[3]]))
  }

  /** `[ret]`: the line is rewritten to return the chosen output and its value is returned. */
  function ExecRetMarker(st: State, store: Store): (r: Exec)
    requires Wf(st, store) && AtLine(st)
    ensures !r.Continue?
    ensures r.Return? ==> r.state.retval.Some? && |r.state.lines| == |st.lines| && r.store == store
                          && r.state.codePointer == st.codePointer
  {
    match CheckForExpected(st, store)
    case None => Failed
    case Some(name) =>
      var ret := Parse("ret " + name);
      var st2 := st.(lines := st.lines[st.codePointer := ret]);
      if |ret.params| == 0 then Crash
      else
        match Evaluate(st2, store, ret.params[0])
        case None => Crash
        case Some(v) => Return(st2.(retval := Some(v), ended := true), store)
  }

  /** `State.execute(state.current_line())`. */
  function Execute(st0: State, store: Store): (r: Exec)
    requires Wf(st0, store) && AtLine(st0)
    ensures r.Continue? ==> Wf(r.state, r.store) && r.state.lines == st0.lines && |r.store| >= |store|
                            && r.state.codePointer == st0.codePointer
    ensures r.Return? ==> r.state.retval.Some? && |r.state.lines| == |st0.lines| && r.store == store
                          && r.state.codePointer == st0.codePointer
  {
    var st := st0.(linesExecuted := st0.linesExecuted + 1);
    var line := st.lines[st.codePointer];
    var cmd, ps := line.cmd, line.params;
    if |cmd| == 0 then Crash
    else if cmd[|cmd| - 1] == ':' then Continue(st, store, None)
    else if cmd == "[ret]" then ExecRetMarker(st, store)
    else if cmd == "ret" then
      if |ps| == 0 then Crash
      else
        match Evaluate(st, store, ps[0])
        case None => Crash
        case Some(v) => Return(st.(retval := Some(v)), store)
    else if cmd == "add" || cmd == "mul" then ExecArith(st, store, cmd, ps)
    else if cmd == "cmp" then ExecCmp(st, store, ps)
    else if cmd == "jmp" then
      if |ps| == 0 || ps[0] !in st.labels then Crash
      else Continue(st, store, Some(st.labels[ps[0]]))
    else Crash
  }

  lemma {:induction false} SetVarFrame(st: State, store: Store, token: string, val: int)
    requires Wf(st, store)
    ensures var r := SetVar(st, store, token, val);
            r.Some? ==> Wf(r.value.0, r.value.1) && |r.value.1| >= |store| && r.value.0.lines == st.lines
                        && r.value.0.codePointer == st.codePointer
  {
    match ScopeOf(token)
    case None =>
    case Some(s) =>
      var d := Dict(st, s);
      match IndexOf(d, token)
      case Some(k) =>
      case None =>
        var st' := WithDict(st, s, d + [Binding(token, |store|)]);
        assert RefsIn(Dict(st', s), |store| + 1);
  }

  /** `State.find_labels` run on `lines` from an empty table: `name:` at index i maps name to i + 1. */
  function LabelsOf(lines: seq<Instruction>): map<string, int>
  {
    if |lines| == 0 then map[]
    else
      var m := LabelsOf(lines[..|lines| - 1]);
      var code := lines[|lines| - 1].code;
      if IsLabel(code) then m[code[..|code| - 1] := |lines|] else m
  }

  /** `State.all_code`: the line texts separated by newlines (a newline is only added once
      the text so far is non-empty). */
  function AllCode(lines: seq<Instruction>): string
  {
    if |lines| == 0 then ""
    else
      var s := AllCode(lines[..|lines| - 1]);
      (if s != "" then s + "\n" else s) + lines[|lines| - 1].code
  }

  function Codes(lines: seq<Instruction>): seq<string> {
    seq(|lines|, k requires 0 <= k < |lines| => lines[k].code)
  }

  // ------------------------------------------------------------- properties

  /** A value a dictionary entry holds. */
  function Val(d: seq<Binding>, store: Store, k: nat): int
    requires RefsIn(d, |store|) && k < |d|
  {
    store[d[k].ref].val
  }

  /**
   * add/mul store the sum or product of the first two operands in the third. A name that is
   * new gets a fresh cell whose `lastSet` is the code pointer; an existing one keeps its cell
   * and its `lastSet`, and only that cell's value changes.
   */
  lemma {:induction false} ExecuteArith(st: State, store: Store, a: int, b: int)
    requires Wf(st, store) && AtLine(st)
    requires IsCommutative(st.lines[st.codePointer].cmd)
    requires |st.lines[st.codePointer].params| >= 3
    requires Evaluate(st, store, st.lines[st.codePointer].params[0]) == Some(a)
    requires Evaluate(st, store, st.lines[st.codePointer].params[1]) == Some(b)
    requires ScopeOf(st.lines[st.codePointer].params[2]).Some?
    ensures var line := st.lines[st.codePointer];
            var dest := line.params[2];
            var s := ScopeOf(dest).value;
            var r := Execute(st, store);
            var v := if line.cmd == "add" then a + b else a * b;
            && r.Continue? && r.jump.None?
            && match IndexOf(Dict(st, s), dest)
               case Some(k) =>
                 && r.state == st.(linesExecuted := st.linesExecuted + 1)
                 && var ref := Dict(st, s)[k].ref;
                    && r.store == store[ref := Cell(store[ref].name, v, store[ref].lastSet)]
               case None =>
                 && r.store == store + [Cell(dest, v, st.codePointer)]
                 && Dict(r.state, s) == Dict(st, s) + [Binding(dest, |store|)]
  {
    var st1 := st.(linesExecuted := st.linesExecuted + 1);
    var line := st.lines[st.codePointer];
    var dest := line.params[2];
    assert Evaluate(st1, store, line.params[0]) == Some(a);
    assert Evaluate(st1, store, line.params[1]) == Some(b);
    assert Dict(st1, ScopeOf(dest).value) == Dict(st, ScopeOf(dest).value);
    ArithStores(st1, store, line.cmd, line.params, a, b);
    SetVarShape(st1, store, dest, Arith(line.cmd, a, b));
  }

  /** Assignment to an existing name updates its cell in place; a new name gets a fresh cell
      at the end of the store, stamped with the code pointer, and a new entry in its
      dictionary. */
  lemma {:induction false} SetVarShape(st: State, store: Store, dest: string, v: int)
    requires Wf(st, store) && ScopeOf(dest).Some?
    ensures var s := ScopeOf(dest).value;
            var r := SetVar(st, store, dest, v);
            && r.Some?
            && match IndexOf(Dict(st, s), dest)
               case Some(k) =>
                 && r.value.0 == st
                 && var ref := Dict(st, s)[k].ref;
                    && r.value.1 == store[ref := Cell(store[ref].name, v, store[ref].lastSet)]
               case None =>
                 && r.value.1 == store + [Cell(dest, v, st.codePointer)]
                 && Dict(r.value.0, s) == Dict(st, s) + [Binding(dest, |store|)]
  {
  }

  /** add/mul with both operands evaluated stores the result into the destination. */
  lemma {:induction false} ArithStores(st: State, store: Store, cmd: string, ps: seq<string>, a: int, b: int)
    requires Wf(st, store) && |ps| >= 3 && ScopeOf(ps[2]).Some?
    requires Evaluate(st, store, ps[0]) == Some(a) && Evaluate(st, store, ps[1]) == Some(b)
    ensures var r := ExecArith(st, store, cmd, ps);
            r.Continue? && SetVar(st, store, ps[2], Arith(cmd, a, b)) == Some((r.state, r.store))
  {
  }

  /** cmp jumps to the line after its label exactly when the comparison holds, and otherwise
      falls through. */
  lemma {:induction false} ExecuteCmp(st: State, store: Store, left: int, right: int)
    requires Wf(st, store) && AtLine(st)
    requires st.lines[st.codePointer].cmd == "cmp"
    requires |st.lines[st.codePointer].params| >= 4
    requires Evaluate(st, store, st.lines[st.codePointer].params[0]) == Some(left)
    requires Evaluate(st, store, st.lines[st.codePointer].params[2]) == Some(right)
    requires Compare(st.lines[st.codePointer].params[1], left, right).Some?
    requires st.lines[st.codePointer].params[3] in st.labels
    ensures var ps := st.lines[st.codePointer].params;
            var r := Execute(st, store);
            && r.Continue? && r.store == store
            && (r.jump == Some(st.labels[ps[3]]) <==> Compare(ps[1], left, right) == Some(true))
            && (r.jump.None? <==> Compare(ps[1], left, right) == Some(false))
  {
  }

  /** jmp continues at the line after its label. */
  lemma {:induction false} ExecuteJmp(st: State, store: Store)
    requires Wf(st, store) && AtLine(st)
    requires st.lines[st.codePointer].cmd == "jmp"
    requires |st.lines[st.codePointer].params| >= 1
    requires st.lines[st.codePointer].params[0] in st.labels
    ensures Execute(st, store) == Continue(st.(linesExecuted := st.linesExecuted + 1), store,
                                           Some(st.labels[st.lines[st.codePointer].params[0]]))
  {
  }

  /** The entry at `k` is the first of `d` to hold `e`, and it is named `name`. */
  predicate FirstHolder(d: seq<Binding>, store: Store, e: int, name: string)
    requires RefsIn(d, |store|)
  {
    exists k :: 0 <= k < |d| && d[k].name == name && Val(d, store, k) == e
      && (forall j :: 0 <= j < k ==> Val(d, store, j) != e)
  }

  predicate NoHolder(d: seq<Binding>, store: Store, e: int)
    requires RefsIn(d, |store|)
  {
    forall j :: 0 <= j < |d| ==> Val(d, store, j) != e
  }

  /** The name check_for_expected settles on: the first output, then the first local, holding `e`. */
  predicate ChosenOutput(st: State, store: Store, e: int, name: string)
    requires Wf(st, store)
  {
    || FirstHolder(st.outputs, store, e, name)
    || (NoHolder(st.outputs, store, e) && FirstHolder(st.locals, store, e, name))
  }

  predicate UniqueNames(d: seq<Binding>) {
    forall a, b :: 0 <= a < b < |d| ==> d[a].name != d[b].name
  }

  /** Every name of `d` starts with `c` and has no space. */
  predicate ScopedDict(d: seq<Binding>, c: char) {
    forall k :: 0 <= k < |d| ==> |d[k].name| > 0 && d[k].name[0] == c && Avoids(d[k].name, ' ')
  }

  predicate InputNames(d: seq<Binding>) {
    forall k :: 0 <= k < |d| ==> d[k].name == "p1" || (|d[k].name| > 0 && d[k].name[0] == 'i')
  }

  /** Names the interpreter itself writes: outputs start with `o`, locals with `l`, and neither
      is an input. */
  predicate ScopedNames(st: State) {
    && ScopedDict(st.outputs, 'o') && ScopedDict(st.locals, 'l') && InputNames(st.inputs)
    && UniqueNames(st.outputs) && UniqueNames(st.locals)
  }

  lemma {:induction false} ParseIntNeedsDigitOrSign(s: string)
    requires |s| > 0 && !IsSpace(s[0]) && !IsDigit(s[0]) && s[0] != '-' && s[0] != '+'
    ensures ParseInt(s) == None
  {
    if !IsSpace(s[|s| - 1]) {
      StripPadded("", s, "");
      assert "" + s + "" == s;
    } else {
      StripHead(s);
    }
  }

  lemma {:induction false} StripHead(s: string)
    requires |s| > 0 && !IsSpace(s[0])
    ensures |Strip(s)| > 0 && Strip(s)[0] == s[0]
  {
    RStripHead(s);
  }

  lemma {:induction false} RStripHead(s: string)
    requires |s| > 0 && !IsSpace(s[0])
    ensures |RStrip(s)| > 0 && RStrip(s)[0] == s[0]
    decreases |s|
  {
    if IsSpace(s[|s| - 1]) {
      RStripHead(s[..|s| - 1]);
    }
  }

  /**
   * At a `[ret]` line: with no output or local holding the expected value the branch fails;
   * otherwise the line becomes `ret <name>` for the chosen variable and the branch returns
   * exactly the expected value.
   */
  /** The line `ret <name>` for a name without spaces has that name as its one parameter. */
  lemma {:induction false} ParseRet(name: string)
    requires Avoids(name, ' ')
    ensures Parse("ret " + name).params == [name]
  {
    assert "ret " + name == "ret" + " " + name;
    forall i | 0 <= i < 3 && i <= |"ret" + " " + name| ensures !(" " <= ("ret" + " " + name)[i..]) {
      assert ("ret" + " " + name)[i..][0] == "ret"[i];
    }
    SplitCons("ret", " ", name, "");
    SplitWhole(name, " ", "") by {
      forall i | 0 <= i < |name| && i <= |name| ensures !(" " <= name[i..]) {
        assert name[i..][0] == name[i];
      }
    }
    assert "" + name == name;
  }

  lemma {:induction false} RetMarkerChoice(st: State, store: Store)
    requires Wf(st, store) && AtLine(st) && ScopedNames(st)
    requires st.lines[st.codePointer].cmd == "[ret]"
    ensures var r := ExecRetMarker(st, store);
            match CheckForExpected(st, store)
            case None => r == Failed
            case Some(name) =>
              && st.expected.Some?
              && ChosenOutput(st, store, st.expected.value, name)
              && r.Return?
              && r.state.retval == st.expected
              && r.state.lines == st.lines[st.codePointer := Parse("ret " + name)]
  {
    match CheckForExpected(st, store)
    case None =>
    case Some(name) =>
      var e := st.expected.value;
      var ret := Parse("ret " + name);
      var st2 := st.(lines := st.lines[st.codePointer := ret]);
      assert Avoids(name, ' ');
      ParseRet(name);
      ParseIntNeedsDigitOrSign(name);
      match FirstWithValue(st.outputs, store, e)
      case Some(k) =>
        assert name == st.outputs[k].name;
        assert IndexOf(st2.inputs, name).None?;
        assert IndexOf(st2.outputs, name).Some?;
        var k' := IndexOf(st2.outputs, name).value;
        assert k' == k;
      case None =>
        var k := FirstWithValue(st.locals, store, e).value;
        assert name == st.locals[k].name;
        var k' := IndexOf(st2.locals, name).value;
        assert k' == k;
        assert ChosenOutput(st, store, e, name);
  }

  lemma {:induction false} ExecuteRetMarker(st: State, store: Store)
    requires Wf(st, store) && AtLine(st) && ScopedNames(st)
    requires st.lines[st.codePointer].cmd == "[ret]"
    ensures var r := Execute(st, store);
            match CheckForExpected(st, store)
            case None => r == Failed
            case Some(name) =>
              && st.expected.Some?
              && ChosenOutput(st, store, st.expected.value, name)
              && r.Return?
              && r.state.retval == st.expected
              && r.state.lines == st.lines[st.codePointer := Parse("ret " + name)]
  {
    var st1 := st.(linesExecuted := st.linesExecuted + 1);
    assert Execute(st, store) == ExecRetMarker(st1, store);
    assert CheckForExpected(st1, store) == CheckForExpected(st, store);
    RetMarkerChoice(st1, store);
  }

  /** `setvar` sends a name starting with `l` to the locals, with `i` to the inputs and with
      `o` to the outputs, and adds it only when it is not there yet: the names stay scoped. */
  lemma {:induction false} SetVarKeepsScoped(st: State, store: Store, token: string, val: int)
    requires Wf(st, store) && ScopedNames(st) && Avoids(token, ' ')
    ensures var r := SetVar(st, store, token, val);
            r.Some? ==> ScopedNames(r.value.0)
  {
    match ScopeOf(token)
    case None =>
    case Some(s) =>
      var d := Dict(st, s);
      match IndexOf(d, token)
      case Some(k) =>
        assert SetVar(st, store, token, val).value.0 == st;
      case None =>
        var b := Binding(token, |store|);
        assert SetVar(st, store, token, val).value.0 == WithDict(st, s, d + [b]);
        match s
        case Input => AppendInput(d, b);
        case Output => AppendScoped(d, b, 'o');
        case Local => AppendScoped(d, b, 'l');
  }

  lemma {:induction false} AppendScoped(d: seq<Binding>, b: Binding, c: char)
    requires ScopedDict(d, c) && UniqueNames(d)
    requires |b.name| > 0 && b.name[0] == c && Avoids(b.name, ' ')
    requires forall j :: 0 <= j < |d| ==> d[j].name != b.name
    ensures ScopedDict(d + [b], c) && UniqueNames(d + [b])
  {
    var d' := d + [b];
    assert forall j :: 0 <= j < |d| ==> d'[j] == d[j];
  }

  lemma {:induction false} AppendInput(d: seq<Binding>, b: Binding)
    requires InputNames(d) && |b.name| > 0 && b.name[0] == 'i'
    ensures InputNames(d + [b])
  {
    var d' := d + [b];
    assert forall j :: 0 <= j < |d| ==> d'[j] == d[j];
  }

  /** Every line's parameters are words, as `Instruction(line)` makes them. */
  predicate WordLines(lines: seq<Instruction>) {
    forall k :: 0 <= k < |lines| ==> Words(lines[k].params)
  }

  /** Executing a line keeps the names scoped and the lines parsed. */
  lemma {:induction false} ExecuteKeepsScoped(st: State, store: Store)
    requires Wf(st, store) && AtLine(st) && ScopedNames(st) && WordLines(st.lines)
    ensures var r := Execute(st, store);
            (r.Continue? || r.Return?) ==> ScopedNames(r.state) && WordLines(r.state.lines)
  {
    var st1 := st.(linesExecuted := st.linesExecuted + 1);
    var line := st1.lines[st1.codePointer];
    var cmd, ps := line.cmd, line.params;
    var r := Execute(st, store);
    if |cmd| == 0 {
    } else if cmd[|cmd| - 1] == ':' {
      assert r.state == st1;
    } else if cmd == "[ret]" {
      assert r == ExecRetMarker(st1, store);
      RetMarkerDicts(st1, store);
      if r.Return? {
        var name :| r.state.lines == st1.lines[st1.codePointer := Parse("ret " + name)];
        assert WordLines(r.state.lines) by {
          forall k | 0 <= k < |r.state.lines| ensures Words(r.state.lines[k].params) {
            if k != st1.codePointer {
              assert r.state.lines[k] == st1.lines[k];
            }
          }
        }
      }
    } else if cmd == "ret" {
    } else if cmd == "add" || cmd == "mul" {
      assert r == ExecArith(st1, store, cmd, ps);
      assert Words(ps);
      ArithKeepsScoped(st1, store, cmd, ps);
    } else if cmd == "cmp" {
      assert r == ExecCmp(st1, store, ps);
    } else if cmd == "jmp" {
    }
  }

  /** The `[ret]` line changes the return value and that one line (to a `ret` line), no
      dictionary. */
  lemma {:induction false} RetMarkerDicts(st: State, store: Store)
    requires Wf(st, store) && AtLine(st)
    ensures var r := ExecRetMarker(st, store);
            r.Return? ==> && r.state.inputs == st.inputs && r.state.outputs == st.outputs && r.state.locals == st.locals
                          && exists name :: r.state.lines == st.lines[st.codePointer := Parse("ret " + name)]
  {
    var r := ExecRetMarker(st, store);
    if r.Return? {
      var name := CheckForExpected(st, store).value;
      assert r.state.lines == st.lines[st.codePointer := Parse("ret " + name)];
    }
  }

  lemma {:induction false} ArithKeepsScoped(st: State, store: Store, cmd: string, ps: seq<string>)
    requires Wf(st, store) && ScopedNames(st) && Words(ps)
    ensures var r := ExecArith(st, store, cmd, ps);
            r.Continue? ==> ScopedNames(r.state)
  {
    if |ps| >= 3 {
      var a, b := Evaluate(st, store, ps[0]), Evaluate(st, store, ps[1]);
      if a.Some? && b.Some? {
        SetVarKeepsScoped(st, store, ps[2], Arith(cmd, a.value, b.value));
      }
    }
  }


  predicate LabelAt(lines: seq<Instruction>, i: int, name: string)
    requires 0 <= i < |lines|
  {
    IsLabel(lines[i].code) && lines[i].code[..|lines[i].code| - 1] == name
  }

  /** find_labels has an entry for exactly the names that label some line. */
  lemma {:induction false} LabelsOfKeys(lines: seq<Instruction>, name: string)
    ensures name in LabelsOf(lines) <==> exists i :: 0 <= i < |lines| && LabelAt(lines, i, name)
  {
    if |lines| > 0 {
      var front := lines[..|lines| - 1];
      var last := lines[|lines| - 1].code;
      LabelsOfKeys(front, name);
      assert forall i :: 0 <= i < |front| ==> (LabelAt(front, i, name) <==> LabelAt(lines, i, name));
      if LabelAt(lines, |lines| - 1, name) {
        assert name in LabelsOf(lines);
      } else {
        assert name in LabelsOf(lines) <==> name in LabelsOf(front);
        if exists i :: 0 <= i < |lines| && LabelAt(lines, i, name) {
          var i :| 0 <= i < |lines| && LabelAt(lines, i, name);
          assert LabelAt(front, i, name);
        }
      }
    }
  }

  /** find_labels maps a label to the index just after its last `name:` line. */
  lemma {:induction false} LabelsOfValue(lines: seq<Instruction>, name: string)
    requires name in LabelsOf(lines)
    ensures 1 <= LabelsOf(lines)[name] <= |lines|
    ensures LabelAt(lines, LabelsOf(lines)[name] - 1, name)
    ensures forall i :: LabelsOf(lines)[name] <= i < |lines| ==> !LabelAt(lines, i, name)
  {
    var front := lines[..|lines| - 1];
    var last := lines[|lines| - 1].code;
    if IsLabel(last) && last[..|last| - 1] == name {
    } else {
      LabelsOfValue(front, name);
      var v := LabelsOf(lines)[name];
      assert LabelAt(front, v - 1, name);
      forall i | v <= i < |lines| ensures !LabelAt(lines, i, name) {
        if i < |front| {
          assert !LabelAt(front, i, name);
        }
      }
    }
  }

  /** all_code is the newline join of the line texts whenever no line is empty. */
  lemma {:induction false} AllCodeJoins(lines: seq<Instruction>)
    requires forall k :: 0 <= k < |lines| ==> lines[k].code != ""
    ensures AllCode(lines) == Join(Codes(lines), "\n")
    ensures |lines| > 0 ==> AllCode(lines) != ""
  {
    if |lines| > 1 {
      var front := lines[..|lines| - 1];
      AllCodeJoins(front);
      JoinSnoc(Codes(front), lines[|lines| - 1].code, "\n");
      assert Codes(lines) == Codes(front) + [lines[|lines| - 1].code];
    } else if |lines| == 1 {
      assert lines[..0] == [];
      assert Codes(lines) == [lines[0].code];
    }
  }

  lemma {:induction false} JoinSnoc(parts: seq<string>, last: string, sep: string)
    requires |parts| > 0
    ensures Join(parts + [last], sep) == Join(parts, sep) + sep + last
  {
    if |parts| == 1 {
      assert (parts + [last])[1..] == [last];
    } else {
      assert (parts + [last])[1..] == parts[1..] + [last];
      JoinSnoc(parts[1..], last, sep);
    }
  }
}
