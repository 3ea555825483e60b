/**
 * The loop of the older interpreter (old/cold.py `Interpreter.run`): a call stack of frames,
 * each a sub's lines and the index of the next one. A line runs when it has no condition or its
 * condition holds; `jump` pushes a frame for the named sub, `return` pops the current one, and
 * running off the end of a sub pops it too. The loop runs until the call stack is empty.
 */
module OldInterpreter {
  import opened Wrappers
  import opened Text
  import opened OldProgram
  import opened OldContext

  /** A call-stack entry: the lines of a sub and the index of the next line to run. */
  datatype Frame = Frame(sub: seq<Line>, line: nat)

  /** The data and the call stack; the current frame is the last. */
  datatype Machine = Machine(ctx: Ctx, frames: seq<Frame>)

  datatype Stepped = Next(m: Machine) | Halt(ctx: Ctx) | Fault

  /** How a run ends: the call stack emptied, `superbu` stopped it, Python raised, or the step bound ran out. */
  datatype Outcome = Finished(ctx: Ctx) | Exited(ctx: Ctx) | Crashed | OutOfFuel

  /** The current frame moved on to its next line. */
  function Advanced(frames: seq<Frame>): seq<Frame>
    requires |frames| > 0
  {
    var top := frames[|frames| - 1];
    frames[..|frames| - 1] + [Frame(top.sub, top.line + 1)]
  }

  /** Whether the line runs: an empty condition always does, otherwise `compare` decides. */
  function Runs(vars: map<string, Value>, line: Line): Option<bool> {
    if line.conditional == "" then Some(true) else Compared(vars, line.conditional)
  }

  /** One pass of the `while True` loop body; on an empty call stack, which the loop stops at, nothing moves. */
  function Step(program: map<string, seq<Line>>, m: Machine): Stepped {
    if |m.frames| == 0 then Next(m)
    else
      var top := m.frames[|m.frames| - 1];
      var below := m.frames[..|m.frames| - 1];
      if top.line >= |top.sub| then Next(Machine(m.ctx, below))
      else
        var line := top.sub[top.line];
        match Runs(m.ctx.vars, line)
        case None => Fault
        case Some(false) => Next(Machine(m.ctx, Advanced(m.frames)))
        case Some(true) => Effected(program, m.frames, Exec(m.ctx, line))
  }

  /** A pass over a line whose condition has been decided: skipped, or executed. */
  lemma {:induction false} StepRuns(program: map<string, seq<Line>>, m: Machine, execute: bool)
    requires |m.frames| > 0
    requires var top := m.frames[|m.frames| - 1];
      top.line < |top.sub| && Runs(m.ctx.vars, top.sub[top.line]) == Some(execute)
    ensures var top := m.frames[|m.frames| - 1];
      Step(program, m) == if execute then Effected(program, m.frames, Exec(m.ctx, top.sub[top.line]))
                          else Next(Machine(m.ctx, Advanced(m.frames)))
  {
  }

  /** What an executed line does to the call stack, given what `execute` returned. */
  function Effected(program: map<string, seq<Line>>, frames: seq<Frame>, done: Option<(Ctx, Effect)>): Stepped
    requires |frames| > 0
  {
    match done
    case None => Fault
    case Some((c, effect)) =>
      match effect
      case Continue => Next(Machine(c, Advanced(frames)))
      case Return => Next(Machine(c, frames[..|frames| - 1]))
      case Exit => Halt(c)
      case Call(name) =>
        if name in program then Next(Machine(c, Advanced(frames) + [Frame(program[name], 0)]))
        else Fault
  }

  /** The `while True` loop for a given pass: it stops when the call stack is empty, after at most `fuel` passes. */
  function Loop(step: Machine -> Stepped, m: Machine, fuel: nat): Outcome
    decreases fuel
  {
    if |m.frames| == 0 then Finished(m.ctx)
    else if fuel == 0 then OutOfFuel
    else
      match step(m)
      case Fault => Crashed
      case Halt(c) => Exited(c)
      case Next(m') => Loop(step, m', fuel - 1)
  }

  function Passes(program: map<string, seq<Line>>): Machine -> Stepped {
    m => Step(program, m)
  }

  /** The loop of `run` from `m`, for at most `fuel` passes. */
  function RunFrom(program: map<string, seq<Line>>, m: Machine, fuel: nat): Outcome {
    Loop(Passes(program), m, fuel)
  }

  /** `run` on a fresh interpreter: it raises without a `bu` sub, else starts `bu` at its first line. */
  function Running(program: map<string, seq<Line>>, ctx: Ctx, fuel: nat): Outcome {
    if "bu" !in program then Crashed
    else RunFrom(program, Machine(ctx, [Frame(program["bu"], 0)]), fuel)
  }

  /** The whole program: parse the source, then run it on a fresh context. */
  function Execution(source: string, fuel: nat): Outcome {
    match ProgramOf(source)
    case None => Crashed
    case Some(program) => Running(program, Initial(), fuel)
  }

  // ---------------------------------------------------------------- properties of one pass

  /** Only `jump` calls, only `return` returns and only `superbu` stops the program. */
  lemma {:induction false} ExecEffects(c: Ctx, line: Line)
    requires Exec(c, line).Some?
    ensures Exec(c, line).value.1.Call? <==> line.kind == Jump
    ensures Exec(c, line).value.1 == Effect.Return <==> line.kind == Kind.Return
    ensures Exec(c, line).value.1 == Exit <==> line.kind == Superbu
    ensures line.kind == Jump ==> Exec(c, line).value == (c, Call(Drop(line.code, 5)))
  {
  }

  /** A pass keeps every list reference inside the store. */
  lemma {:induction false} StepKeepsWf(program: map<string, seq<Line>>, m: Machine)
    requires Wf(m.ctx)
    ensures Step(program, m).Next? ==> Wf(Step(program, m).m.ctx)
    ensures Step(program, m).Halt? ==> Wf(Step(program, m).ctx)
  {
    if |m.frames| > 0 {
      var top := m.frames[|m.frames| - 1];
      if top.line < |top.sub| && Runs(m.ctx.vars, top.sub[top.line]) == Some(true)
         && Exec(m.ctx, top.sub[top.line]).Some? {
        ExecKeepsWf(m.ctx, top.sub[top.line]);
      }
    }
  }

  /**
   * The shape of the call stack: every frame points at most one past the end of its sub, and
   * every frame below the current one is suspended just after a `jump` line.
   */
  predicate Sound(frames: seq<Frame>) {
    && (forall k :: 0 <= k < |frames| ==> frames[k].line <= |frames[k].sub|)
    && (forall k :: 0 <= k < |frames| - 1 ==>
          frames[k].line >= 1 && frames[k].sub[frames[k].line - 1].kind == Jump)
  }

  /** The call stack a run starts with is sound. */
  lemma {:induction false} StartIsSound(program: map<string, seq<Line>>)
    requires "bu" in program
    ensures Sound([Frame(program["bu"], 0)])
  {
  }

  /** Each pass keeps the call stack sound and changes its depth by at most one. */
  lemma {:induction false} StepKeepsSound(program: map<string, seq<Line>>, m: Machine)
    requires |m.frames| > 0 && Sound(m.frames)
    requires Step(program, m).Next?
    ensures var n := |Step(program, m).m.frames|;
      && Sound(Step(program, m).m.frames)
      && |m.frames| - 1 <= n <= |m.frames| + 1
  {
    var top := m.frames[|m.frames| - 1];
    SoundBelow(m.frames);
    if top.line < |top.sub| {
      var line := top.sub[top.line];
      SoundAdvanced(m.frames);
      if Runs(m.ctx.vars, line) == Some(true) {
        ExecEffects(m.ctx, line);
        var effect := Exec(m.ctx, line).value.1;
        if effect.Call? {
          SoundCall(m.frames, Frame(program[effect.name], 0));
        }
      }
    }
  }

  /** Popping the current frame keeps the stack sound. */
  lemma {:induction false} SoundBelow(frames: seq<Frame>)
    requires |frames| > 0 && Sound(frames)
    ensures Sound(frames[..|frames| - 1])
  {
  }

  /** Moving the current frame on by one line keeps the stack sound. */
  lemma {:induction false} SoundAdvanced(frames: seq<Frame>)
    requires |frames| > 0 && Sound(frames)
    requires frames[|frames| - 1].line < |frames[|frames| - 1].sub|
    ensures Sound(Advanced(frames))
  {
    var adv := Advanced(frames);
    assert forall k :: 0 <= k < |frames| - 1 ==> adv[k] == frames[k];
  }

  /** A `jump` line suspends the current frame just after it and opens a new one. */
  lemma {:induction false} SoundCall(frames: seq<Frame>, f: Frame)
    requires |frames| > 0 && Sound(frames) && f.line == 0
    requires var top := frames[|frames| - 1];
      top.line < |top.sub| && top.sub[top.line].kind == Jump
    ensures Sound(Advanced(frames) + [f])
  {
    var adv := Advanced(frames);
    SoundAdvanced(frames);
    var r := adv + [f];
    assert forall k :: 0 <= k < |adv| ==> r[k] == adv[k];
    assert adv[|adv| - 1].sub[adv[|adv| - 1].line - 1] == frames[|frames| - 1].sub[frames[|frames| - 1].line];
  }

  /** A line whose condition is false is skipped: only the line index moves. */
  lemma {:induction false} FalseConditionSkips(program: map<string, seq<Line>>, m: Machine)
    requires |m.frames| > 0
    requires var top := m.frames[|m.frames| - 1];
      && top.line < |top.sub| && top.sub[top.line].conditional != ""
      && Compared(m.ctx.vars, top.sub[top.line].conditional) == Some(false)
    ensures Step(program, m) == Next(Machine(m.ctx, Advanced(m.frames)))
  {
  }

  // ---------------------------------------------------------------- properties of the loop

  /** A pass that leaves a machine behind hands the rest of the loop to it. */
  lemma {:induction false} LoopStep(step: Machine -> Stepped, m: Machine, fuel: nat)
    requires |m.frames| > 0 && step(m).Next?
    ensures Loop(step, m, fuel + 1) == Loop(step, step(m).m, fuel)
  {
  }

  /** A loop that ends within some bound ends the same way with any larger one. */
  lemma {:induction false} FuelMonotone(step: Machine -> Stepped, m: Machine, fuel: nat, more: nat)
    requires Loop(step, m, fuel) != OutOfFuel
    ensures Loop(step, m, fuel + more) == Loop(step, m, fuel)
    decreases fuel
  {
    if |m.frames| > 0 && step(m).Next? {
      FuelMonotone(step, step(m).m, fuel - 1, more);
    }
  }

  /** `m'` is reached from `m` in exactly `a` passes, none of which starts on an empty call stack. */
  predicate Reaches(step: Machine -> Stepped, m: Machine, m': Machine, a: nat)
    decreases a
  {
    if a == 0 then m == m'
    else |m.frames| > 0 && step(m).Next? && Reaches(step, step(m).m, m', a - 1)
  }

  /** The loop composes: the first `a` passes, then the rest from where they left off. */
  lemma {:induction false} LoopSplits(step: Machine -> Stepped, m: Machine, m': Machine, a: nat, fuel: nat)
    requires Reaches(step, m, m', a)
    ensures Loop(step, m, a + fuel) == Loop(step, m', fuel)
    decreases a
  {
    if a > 0 {
      LoopStep(step, m, (a - 1) + fuel);
      LoopSplits(step, step(m).m, m', a - 1, fuel);
    }
  }

  /** A sub without a `return` ends by running off its last line, which returns to the caller. */
  lemma {:induction false} EndOfSubReturns(program: map<string, seq<Line>>, m: Machine, fuel: nat)
    requires |m.frames| > 0
    requires m.frames[|m.frames| - 1].line >= |m.frames[|m.frames| - 1].sub|
    ensures RunFrom(program, m, fuel + 1) == RunFrom(program, Machine(m.ctx, m.frames[..|m.frames| - 1]), fuel)
  {
    assert Passes(program)(m) == Next(Machine(m.ctx, m.frames[..|m.frames| - 1]));
    LoopStep(Passes(program), m, fuel);
  }

  function JumpLine(name: string): Line {
    Line(Jump, "jump " + name, "")
  }

  /**
   * `jump f` into a sub that starts with `return` comes straight back: after two passes the
   * caller is at its next line and the data is unchanged.
   */
  lemma {:induction false} JumpThenReturn(program: map<string, seq<Line>>, m: Machine, name: string, fuel: nat)
    requires |m.frames| > 0
    requires var top := m.frames[|m.frames| - 1];
      top.line < |top.sub| && top.sub[top.line] == JumpLine(name)
    requires name in program && |program[name]| > 0
    requires program[name][0].kind == Kind.Return && program[name][0].conditional == ""
    ensures RunFrom(program, m, fuel + 2) == RunFrom(program, Machine(m.ctx, Advanced(m.frames)), fuel)
  {
    DropWord("jump ", name);
    var step := Passes(program);
    var called := Machine(m.ctx, Advanced(m.frames) + [Frame(program[name], 0)]);
    var back := Machine(m.ctx, Advanced(m.frames));
    assert step(m) == Next(called);
    assert step(called) == Next(back);
    assert Reaches(step, back, back, 0);
    assert Reaches(step, m, back, 2);
    LoopSplits(step, m, back, 2, fuel);
  }

  /** An unconditional `superbu` stops the program with the data as it is. */
  lemma {:induction false} SuperbuExits(program: map<string, seq<Line>>, m: Machine, fuel: nat)
    requires |m.frames| > 0
    requires var top := m.frames[|m.frames| - 1];
      top.line < |top.sub| && top.sub[top.line].kind == Superbu && top.sub[top.line].conditional == ""
    ensures RunFrom(program, m, fuel + 1) == Exited(m.ctx)
  {
    assert Passes(program)(m) == Halt(m.ctx);
  }

  /** A program whose `bu` sub is empty finishes at once with the data it was given. */
  lemma {:induction false} EmptyBuFinishes(program: map<string, seq<Line>>, ctx: Ctx, fuel: nat)
    requires "bu" in program && program["bu"] == []
    ensures Running(program, ctx, fuel + 1) == Finished(ctx)
  {
    var m := Machine(ctx, [Frame([], 0)]);
    assert Passes(program)(m) == Next(Machine(ctx, []));
    LoopStep(Passes(program), m, fuel);
  }

  // ---------------------------------------------------------------- the Interpreter object

  class Interpreter {
    const program: map<string, seq<Line>>
    const context: Context
    var callStack: seq<Frame>

    constructor(program: map<string, seq<Line>>, context: Context)
      ensures this.program == program && this.context == context && callStack == []
    {
      this.program := program;
      this.context := context;
      callStack := [];
    }

    /** `code_pointer`: the current frame. */
    function CodePointer(): Frame
      reads this
      requires |callStack| > 0
    {
      callStack[|callStack| - 1]
    }

    /** One pass of the loop body of `run`, on a non-empty call stack. */
    method Pass() returns (s: Stepped)
      requires |callStack| > 0
      modifies this, context
      ensures s == Step(program, Machine(old(context.State()), old(callStack)))
      ensures s.Next? ==> s.m == Machine(context.State(), callStack)
    {
      ghost var m := Machine(context.State(), callStack);
      var ptr := CodePointer();
      var below := callStack[..|callStack| - 1];
      if ptr.line >= |ptr.sub| {
        callStack := below;
        return Next(Machine(context.State(), callStack));
      }
      var line := ptr.sub[ptr.line];
      var holds := Decide(line);
      if holds.None? {
        return Fault;
      }
      var execute := holds.value;
      StepRuns(program, m, execute);
      if !execute {
        callStack := below + [Frame(ptr.sub, ptr.line + 1)];
        return Next(Machine(context.State(), callStack));
      }
      s := Perform(line);
    }

    /** Whether the line runs: without a condition it does, otherwise `compare` decides. */
    method Decide(line: Line) returns (holds: Option<bool>)
      ensures holds == Runs(context.State().vars, line)
    {
      holds := Some(true);
      if line.conditional != "" {
        holds := context.Compare(line.conditional);
      }
    }

    /** The executed half of a pass: `execute(line)`, then the line index moves on and the
        effect is applied to the call stack. */
    method Perform(line: Line) returns (s: Stepped)
      requires |callStack| > 0
      modifies this, context
      ensures s == Effected(program, old(callStack), Exec(old(context.State()), line))
      ensures s.Next? ==> s.m == Machine(context.State(), callStack)
    {
      ghost var frames := callStack;
      var ptr := CodePointer();
      var below := callStack[..|callStack| - 1];
      var ok, effect := context.Execute(line);
      if !ok {
        return Fault;
      }
      callStack := below + [Frame(ptr.sub, ptr.line + 1)];
      assert callStack == Advanced(frames);
      match effect {
        case Continue =>
        case Return =>
          callStack := callStack[..|callStack| - 1];
          assert callStack == below;
        case Exit => return Halt(context.State());
        case Call(name) =>
          if name !in program {
            return Fault;
          }
          callStack := callStack + [Frame(program[name], 0)];
      }
      return Next(Machine(context.State(), callStack));
    }

    /** `run`, for at most `fuel` passes of its loop. */
    method Run(fuel: nat) returns (outcome: Outcome)
      modifies this, context
      ensures "bu" !in program ==> outcome == Crashed
      ensures "bu" in program ==>
        outcome == RunFrom(program, Machine(old(context.State()), old(callStack) + [Frame(program["bu"], 0)]), fuel)
      ensures old(callStack) == [] ==> outcome == Running(program, old(context.State()), fuel)
    {
      if "bu" !in program {
        return Crashed;
      }
      var start := callStack + [Frame(program["bu"], 0)];
      callStack := start;
      outcome := RunLoop(fuel);
      if old(callStack) == [] {
        assert start == [Frame(program["bu"], 0)];
      }
    }

    /** The `while True` loop of `run`, for at most `fuel` passes. */
    method RunLoop(fuel: nat) returns (outcome: Outcome)
      modifies this, context
      ensures outcome == RunFrom(program, Machine(old(context.State()), old(callStack)), fuel)
    {
      var f := fuel;
      while true
        invariant RunFrom(program, Machine(context.State(), callStack), f)
               == RunFrom(program, Machine(old(context.State()), old(callStack)), fuel)
        decreases f
      {
        if |callStack| == 0 {
          return Finished(context.State());
        }
        if f == 0 {
          return OutOfFuel;
        }
        var stopped;
        stopped, f := Advance(f);
        if stopped.Some? {
          return stopped.value;
        }
      }
    }

    /** One pass of the loop of `run`: it either ends the run, with the outcome of the
        whole loop, or leaves the rest of the loop to the stack and data it produced. */
    method Advance(f: nat) returns (stopped: Option<Outcome>, left: nat)
      requires |callStack| > 0 && f > 0
      modifies this, context
      ensures left == f - 1
      ensures stopped.Some? ==>
        stopped.value == RunFrom(program, Machine(old(context.State()), old(callStack)), f)
      ensures stopped.None? ==>
        RunFrom(program, Machine(context.State(), callStack), left)
        == RunFrom(program, Machine(old(context.State()), old(callStack)), f)
    {
      left := f - 1;
      ghost var m := Machine(context.State(), callStack);
      var s := Pass();
      assert Passes(program)(m) == s;
      match s {
        case Fault => return Some(Crashed), left;
        case Halt(c) => return Some(Exited(c)), left;
        case Next(_) =>
          LoopStep(Passes(program), m, left);
          return None, left;
      }
    }
  }
}
