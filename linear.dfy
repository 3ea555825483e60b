/**
 * Running a program file outside the search (cold/cold.py, `run_linear`).
 *
 * The file is cleaned of blank and `#` lines and cut at every `def `. The last piece that
 * starts with `main 1` is the main function: its lines are the code that runs. The other
 * pieces become the `functions` section of a job. The main code then runs once, with
 * `p1 = p1` and no expected value, under the round-based interpreter, and the value of the
 * last return is the result.
 */
module ColdLinear {
  import opened Wrappers
  import opened Text
  import opened ColdVm
  import opened ColdSearch
  import opened ColdContext
  import opened ColdRounds
  import ColdJob

  /** A line the cleaning keeps (it is stripped first). */
  predicate Significant(line: string) {
    line != "" && line[0] != '#'
  }

  /** The stripped lines of the file that are neither blank nor comments, in order. */
  function Kept(parts: seq<string>): (r: seq<string>)
    ensures forall k :: 0 <= k < |r| ==> Significant(r[k])
    decreases |parts|
  {
    if |parts| == 0 then []
    else (if Significant(Strip(parts[0])) then [Strip(parts[0])] else []) + Kept(parts[1..])
  }

  /** The file with its blank and comment lines dropped and every line stripped. */
  function Clean(codefile: string): string {
    Join(Kept(Split(codefile, "\n")), "\n")
  }

  /** `func[:6] == "main 1"`. */
  predicate IsMain(func: string) {
    |func| >= 6 && func[..6] == "main 1"
  }

  /** The index the `for i in range(len(funcs))` loop leaves in `main_index`: the last main
      piece. */
  function MainIndex(funcs: seq<string>): (m: Option<nat>)
    ensures m.Some? ==> m.value < |funcs| && IsMain(funcs[m.value])
                        && forall j :: m.value < j < |funcs| ==> !IsMain(funcs[j])
    ensures m.None? <==> forall j :: 0 <= j < |funcs| ==> !IsMain(funcs[j])
    decreases |funcs|
  {
    if |funcs| == 0 then None
    else if IsMain(funcs[|funcs| - 1]) then Some(|funcs| - 1)
    else
      var init := funcs[..|funcs| - 1];
      assert forall j :: 0 <= j < |init| ==> init[j] == funcs[j];
      MainIndex(init)
  }

  /** The code of the main piece: its stripped non-blank lines after `main 1`, each ended by a
      newline. */
  function MainCode(func: string): string
    requires IsMain(func)
  {
    Terminated(NonBlank(Split(func[6..], "\n")))
  }

  /** The pieces left once the main one is popped and the empty ones dropped, in order. */
  function NonEmpty(funcs: seq<string>): (r: seq<string>)
    ensures forall k :: 0 <= k < |r| ==> r[k] != ""
    ensures forall x :: x in r <==> x in funcs && x != ""
    decreases |funcs|
  {
    if |funcs| == 0 then []
    else (if funcs[0] == "" then [] else [funcs[0]]) + NonEmpty(funcs[1..])
  }

  /** The job text the other pieces make up. */
  function FunctionsDoc(others: seq<string>): string {
    "!!functions\n" + Join(others, "def ")
  }

  /** How `run_linear` ends: the last return value, or a raised exception, or out of fuel. */
  datatype Linear = Returned(value: Option<int>) | LinearCrash | LinearOutOfFuel

  /** `run_linear(codefile, p1)`, with at most `fuel` rounds. */
  function RunLinear(codefile: string, p1: int, fuel: nat): Linear {
    var funcs := Split(Clean(codefile), "def ");
    match MainIndex(funcs)
    case None => LinearCrash
    case Some(m) =>
      match ColdJob.Parse(FunctionsDoc(NonEmpty(funcs[..m] + funcs[m + 1..])))
      case None => LinearCrash
      case Some(job) =>
        var c := Case(p1, None);
        Outcome(Rounds(JobConfig(job), [RootState(c, MainCode(funcs[m]))], RootStore(c), None, fuel))
  }

  /** What `run_linear` returns when the interpreter's run ends so. */
  function Outcome(f: Finish): Linear {
    match f
    case Halted(_, _, _, last) => Returned(last)
    case RoundsCrash => LinearCrash
    case RoundsOutOfFuel => LinearOutOfFuel
  }

  // ------------------------------------------------------------ the loops

  /** The cleaning loop. */
  method CleanLines(codefile: string) returns (r: string)
    ensures r == Clean(codefile)
  {
    var parts := Split(codefile, "\n");
    var left: seq<string> := [];
    var i := 0;
    while i < |parts|
      invariant 0 <= i <= |parts|
      invariant left + Kept(parts[i..]) == Kept(parts)
    {
      var part := Strip(parts[i]);
      KeptNext(parts, i, left);
      i := i + 1;
      if part == "" {
        continue;
      }
      if part[0] == '#' {
        continue;
      }
      left := left + [part];
    }
    assert parts[i..] == [];
    assert left + [] == left;
    r := Join(left, "\n");
  }

  /** One more line of the file looked at: kept when significant, skipped otherwise. */
  lemma {:induction false} KeptNext(parts: seq<string>, i: nat, left: seq<string>)
    requires i < |parts| && left + Kept(parts[i..]) == Kept(parts)
    ensures var part := Strip(parts[i]);
      && (!Significant(part) ==> left + Kept(parts[i + 1..]) == Kept(parts))
      && (Significant(part) ==> (left + [part]) + Kept(parts[i + 1..]) == Kept(parts))
  {
    var part := Strip(parts[i]);
    var rest := Kept(parts[i + 1..]);
    assert parts[i..][1..] == parts[i + 1..] && parts[i..][0] == parts[i];
    assert Kept(parts[i..]) == (if Significant(part) then [part] else []) + rest;
    if !Significant(part) {
      assert [] + rest == rest;
    } else {
      assert (left + [part]) + rest == left + ([part] + rest);
    }
  }

  /** The loop building `main_code` from the lines of the main piece. */
  method MainCodeOf(func: string) returns (code: string)
    requires IsMain(func)
    ensures code == MainCode(func)
  {
    var temp := Split(func[6..], "\n");
    code := "";
    ghost var seen: seq<string> := [];
    var k := 0;
    while k < |temp|
      invariant 0 <= k <= |temp|
      invariant seen + NonBlank(temp[k..]) == NonBlank(temp)
      invariant code == Terminated(seen)
    {
      var t := Strip(temp[k]);
      NonBlankNext(temp, k, seen);
      k := k + 1;
      if t == "" {
        continue;
      }
      TerminatedSnoc(seen, t);
      seen := seen + [t];
      code := code + t + "\n";
    }
    assert temp[k..] == [];
    assert seen + [] == seen;
  }

  lemma {:induction false} TerminatedSnoc(ls: seq<string>, t: string)
    ensures Terminated(ls + [t]) == Terminated(ls) + t + "\n"
    decreases |ls|
  {
    if |ls| == 0 {
      assert ls + [t] == [t];
      assert [t][1..] == [];
    } else {
      assert (ls + [t])[0] == ls[0];
      assert (ls + [t])[1..] == ls[1..] + [t];
      TerminatedSnoc(ls[1..], t);
    }
  }

  lemma {:induction false} RootRunningWf(c: Case, code: string)
    ensures RunningWf([RootState(c, code)], RootStore(c))
  {
    assert [RootState(c, code)][0] == RootState(c, code);
  }

  /** The `funcs2` loop. */
  method DropEmpty(funcs: seq<string>) returns (r: seq<string>)
    ensures r == NonEmpty(funcs)
  {
    r := [];
    var i := 0;
    while i < |funcs|
      invariant 0 <= i <= |funcs|
      invariant r + NonEmpty(funcs[i..]) == NonEmpty(funcs)
    {
      assert funcs[i..][1..] == funcs[i + 1..];
      if funcs[i] != "" {
        r := r + [funcs[i]];
      }
      i := i + 1;
    }
    assert funcs[i..] == [];
    assert r + [] == r;
  }

  /** The loop over the pieces that looks for the main function. */
  method FindMain(funcs: seq<string>) returns (mainIndex: Option<nat>, mainCode: string)
    ensures mainIndex == MainIndex(funcs)
    ensures mainIndex.Some? ==> mainCode == MainCode(funcs[mainIndex.value])
  {
    mainIndex := None;
    mainCode := "";
    var i := 0;
    while i < |funcs|
      invariant 0 <= i <= |funcs|
      invariant mainIndex == MainIndex(funcs[..i])
      invariant mainIndex.Some? ==> mainIndex.value < i && mainCode == MainCode(funcs[mainIndex.value])
    {
      assert funcs[..i + 1][..i] == funcs[..i];
      if |funcs[i]| >= 6 && funcs[i][..6] == "main 1" {
        mainCode := MainCodeOf(funcs[i]);
        mainIndex := Some(i);
      }
      i := i + 1;
    }
    assert funcs[..|funcs|] == funcs;
  }

  /** The main code run once under a fresh context for the job. */
  method RunMain(job: ColdJob.Job, p1: int, mainCode: string, fuel: nat) returns (r: Linear)
    ensures r == Outcome(Rounds(JobConfig(job), [RootState(Case(p1, None), mainCode)], RootStore(Case(p1, None)), None, fuel))
  {
    var context := new Context(job);
    var c := Case(p1, None);
    var interpreter := new Interpreter(context, c, mainCode);
    RootRunningWf(c, mainCode);
    var finish := interpreter.Run(fuel);
    if finish.Halted? {
      r := Returned(interpreter.lastRetval);
    } else {
      r := Outcome(finish);
    }
  }

  /** `run_linear(codefile, p1)`, with at most `fuel` rounds. */
  method Run(codefile: string, p1: int, fuel: nat) returns (r: Linear)
    ensures r == RunLinear(codefile, p1, fuel)
  {
    var cleaned := CleanLines(codefile);
    var funcs := Split(cleaned, "def ");
    var mainIndex, mainCode := FindMain(funcs);
    if mainIndex.None? {
      return LinearCrash;
    }
    var m := mainIndex.value;
    var others := DropEmpty(funcs[..m] + funcs[m + 1..]);
    var job := ColdJob.Create("!!functions\n" + Join(others, "def "));
    if job.None? {
      return LinearCrash;
    }
    r := RunMain(job.value, p1, mainCode, fuel);
  }

  // ------------------------------------------------------------ properties

  lemma {:induction false} KeptConcat(a: seq<string>, b: seq<string>)
    ensures Kept(a + b) == Kept(a) + Kept(b)
    decreases |a|
  {
    if |a| == 0 {
      assert a + b == b;
    } else {
      assert (a + b)[0] == a[0];
      assert (a + b)[1..] == a[1..] + b;
      KeptConcat(a[1..], b);
    }
  }

  lemma {:induction false} SplitJoinLines(ls: seq<string>)
    requires forall k :: 0 <= k < |ls| ==> Avoids(ls[k], '\n')
    ensures Kept(Split(Join(ls, "\n"), "\n")) == Kept(ls)
  {
    if |ls| == 0 {
      SplitJoinChar([""], '\n');
      assert Join([""], "\n") == "";
    } else {
      SplitJoinChar(ls, '\n');
    }
  }

  lemma {:induction false} AvoidsConcat(a: seq<string>, b: seq<string>)
    requires forall k :: 0 <= k < |a| ==> Avoids(a[k], '\n')
    requires forall k :: 0 <= k < |b| ==> Avoids(b[k], '\n')
    ensures forall k :: 0 <= k < |a + b| ==> Avoids((a + b)[k], '\n')
  {
    forall k | 0 <= k < |a + b| ensures Avoids((a + b)[k], '\n') {
      if k < |a| {
        assert (a + b)[k] == a[k];
      } else {
        assert (a + b)[k] == b[k - |a|];
      }
    }
  }

  /** Blank lines and comment lines anywhere in the file make no difference. */
  lemma {:induction false} CommentsIgnored(a: seq<string>, c: string, b: seq<string>)
    requires forall k :: 0 <= k < |a| ==> Avoids(a[k], '\n')
    requires forall k :: 0 <= k < |b| ==> Avoids(b[k], '\n')
    requires Avoids(c, '\n') && !Significant(Strip(c))
    ensures Clean(Join(a + [c] + b, "\n")) == Clean(Join(a + b, "\n"))
  {
    var with, without := a + [c] + b, a + b;
    AvoidsConcat(a, [c]);
    AvoidsConcat(a + [c], b);
    AvoidsConcat(a, b);
    assert Kept(with) == Kept(without) by {
      KeptConcat(a + [c], b);
      KeptConcat(a, [c]);
      KeptConcat(a, b);
      assert Kept([c]) == [];
      assert Kept(a) + [] == Kept(a);
    }
    SplitJoinLines(with);
    SplitJoinLines(without);
  }

}
