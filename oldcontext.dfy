/**
 * The data of the older interpreter (old/cold.py `Context`) and what each command does to it.
 * Variables hold integers or lists. A list made by `buffer` is a Python object, so after
 * `stash` / `restore` or `pop` two variables, or a variable and a stack slot, can hold the same
 * list, and a `write` through one is seen through the other. The model keeps every list in a
 * store, `bufs`, and a list value is a reference into it.
 */
module OldContext {
  import opened Wrappers
  import opened Text
  import opened OldProgram

  datatype Value = IntV(i: int) | BufV(ref: nat)

  /** The variables, the value stack and the store of lists. */
  datatype Ctx = Ctx(vars: map<string, Value>, stack: seq<Value>, bufs: seq<seq<int>>)

  predicate Refers(v: Value, bufs: seq<seq<int>>) {
    v.BufV? ==> v.ref < |bufs|
  }

  /** Every list a variable or a stack slot holds is in the store. */
  predicate Wf(c: Ctx) {
    && (forall x :: x in c.vars ==> Refers(c.vars[x], c.bufs))
    && (forall k :: 0 <= k < |c.stack| ==> Refers(c.stack[k], c.bufs))
  }

  /** `Context.__init__`: the four registers at zero, an empty stack. */
  function Initial(): (c: Ctx)
    ensures Wf(c)
  {
    Ctx(map["ax" := IntV(0), "bx" := IntV(0), "cx" := IntV(0), "dx" := IntV(0)], [], [])
  }

  /** What a command tells the interpreter loop: go on, return, call a sub, or stop the program. */
  datatype Effect = Continue | Return | Call(name: string) | Exit

  /** Python's `s[n:]`. */
  function Drop(s: string, n: nat): string {
    if |s| <= n then "" else s[n..]
  }

  function Ints(vs: seq<int>): (r: seq<Value>)
    ensures |r| == |vs| && forall k :: 0 <= k < |vs| ==> r[k] == IntV(vs[k])
  {
    seq(|vs|, k requires 0 <= k < |vs| => IntV(vs[k]))
  }

  // ---------------------------------------------------------------- evaluate

  /** The trailing `+` and `-` signs of `expr`: what precedes them and their net count. */
  function Trailing(expr: string): (string, int)
    decreases |expr|
  {
    if |expr| > 0 && expr[|expr| - 1] == '+' then
      var t := Trailing(expr[..|expr| - 1]);
      (t.0, t.1 + 1)
    else if |expr| > 0 && expr[|expr| - 1] == '-' then
      var t := Trailing(expr[..|expr| - 1]);
      (t.0, t.1 - 1)
    else (expr, 0)
  }

  /**
   * `Context.evaluate`: an integer literal or `$name`, adjusted by the trailing signs; None
   * where Python raises (empty text, unknown name, a list, which cannot take `+=`, or a
   * malformed literal).
   */
  function ValueOf(vars: map<string, Value>, expr: string): Option<int> {
    var t := Trailing(expr);
    var e := Strip(t.0);
    if |e| == 0 then None
    else if e[0] == '$' then
      var name := Strip(e[1..]);
      if name in vars && vars[name].IntV? then Some(vars[name].i + t.1) else None
    else
      match ParseInt(e)
      case None => None
      case Some(v) => Some(v + t.1)
  }

  predicate Signs(s: string) {
    forall k :: 0 <= k < |s| ==> s[k] == '+' || s[k] == '-'
  }

  function Count(s: string, c: char): nat {
    if |s| == 0 then 0 else (if s[0] == c then 1 else 0) + Count(s[1..], c)
  }

  lemma {:induction false} CountSnoc(s: string, c: char, d: char)
    ensures Count(s + [d], c) == Count(s, c) + (if d == c then 1 else 0)
    decreases |s|
  {
    if |s| > 0 {
      assert (s + [d])[1..] == s[1..] + [d];
      CountSnoc(s[1..], c, d);
    } else {
      assert s + [d] == [d];
    }
  }

  /** Each trailing `+` adds one and each trailing `-` takes one away. */
  lemma {:induction false} TrailingSigns(e: string, s: string)
    requires Signs(s)
    requires |e| == 0 || (e[|e| - 1] != '+' && e[|e| - 1] != '-')
    ensures Trailing(e + s) == (e, Count(s, '+') - Count(s, '-'))
    decreases |s|
  {
    if |s| == 0 {
      assert e + s == e;
    } else {
      var s' := s[..|s| - 1];
      assert (e + s)[..|e + s| - 1] == e + s';
      assert s == s' + [s[|s| - 1]];
      TrailingSigns(e, s');
      CountSnoc(s', '+', s[|s| - 1]);
      CountSnoc(s', '-', s[|s| - 1]);
    }
  }

  /** `evaluate("5++-")` is 6: a literal, then its signs. */
  lemma {:induction false} EvaluateLiteral(vars: map<string, Value>, n: int, s: string)
    requires Signs(s)
    ensures ValueOf(vars, IntToString(n) + s) == Some(n + Count(s, '+') - Count(s, '-'))
  {
    var x := IntToString(n);
    IntToStringChars(n);
    assert IsDigit(x[|x| - 1]) && (x[0] == '-' || IsDigit(x[0]));
    TrailingSigns(x, s);
    assert NoSpace(x);
    StripNoSpace(x);
    ParseIntOfString("", n, "");
    assert "" + x + "" == x;
    assert Trailing(x + s) == (x, Count(s, '+') - Count(s, '-')) && Strip(x) == x;
  }

  /** `evaluate("$ax+")` is the value of `ax` plus one. */
  lemma {:induction false} EvaluateVariable(vars: map<string, Value>, name: string, s: string)
    requires Signs(s) && |name| > 0 && NoSpace(name)
    requires name[|name| - 1] != '+' && name[|name| - 1] != '-'
    requires name in vars && vars[name].IntV?
    ensures ValueOf(vars, "$" + name + s) == Some(vars[name].i + Count(s, '+') - Count(s, '-'))
  {
    var x := "$" + name;
    assert x[|x| - 1] == name[|name| - 1];
    TrailingSigns(x, s);
    assert NoSpace(x) by {
      assert forall k :: 1 <= k < |x| ==> x[k] == name[k - 1];
    }
    StripNoSpace(x);
    assert x[1..] == name;
    StripNoSpace(name);
  }

  /** A variable holding a list cannot be evaluated: Python cannot add an integer to a list. */
  lemma {:induction false} EvaluateList(vars: map<string, Value>, name: string)
    requires |name| > 0 && NoSpace(name)
    requires name[|name| - 1] != '+' && name[|name| - 1] != '-'
    requires name in vars && vars[name].BufV?
    ensures ValueOf(vars, "$" + name) == None
  {
    var x := "$" + name;
    assert x[|x| - 1] == name[|name| - 1];
    TrailingSigns(x, "");
    assert x + "" == x;
    assert NoSpace(x) by {
      assert forall k :: 1 <= k < |x| ==> x[k] == name[k - 1];
    }
    StripNoSpace(x);
    assert x[1..] == name;
    StripNoSpace(name);
  }

  // ---------------------------------------------------------------- compare

  /** The comparison operators, in the order `compare` looks for them. */
  const Operators: seq<string> := ["==", "!=", "<", ">"]

  /** The first operator, in that order, that occurs in `expr`. */
  function Operator(expr: string): (r: Option<nat>)
    ensures r.None? <==> forall k :: 0 <= k < |Operators| ==> !Contains(expr, Operators[k])
    ensures r.Some? ==> && r.value < |Operators| && Contains(expr, Operators[r.value])
                        && forall k :: 0 <= k < r.value ==> !Contains(expr, Operators[k])
  {
    assert Operators[0] == "==" && Operators[1] == "!=" && Operators[2] == "<" && Operators[3] == ">";
    if Contains(expr, "==") then Some(0)
    else if Contains(expr, "!=") then Some(1)
    else if Contains(expr, "<") then Some(2)
    else if Contains(expr, ">") then Some(3)
    else None
  }

  function Holds(op: nat, a: int, b: int): bool
    requires op < |Operators|
  {
    if op == 0 then a == b else if op == 1 then a != b else if op == 2 then a < b else a > b
  }

  /** `Context.compare`: both sides of the first operator evaluated and compared; None where Python raises. */
  function Compared(vars: map<string, Value>, expr: string): Option<bool> {
    match Operator(expr)
    case None => None
    case Some(op) =>
      ContainsSplits(expr, Operators[op]);
      var parts := Split(expr, Operators[op]);
      match ValueOf(vars, parts[0])
      case None => None
      case Some(left) =>
        match ValueOf(vars, parts[1])
        case None => None
        case Some(right) => Some(Holds(op, left, right))
  }

  /** Without any operator, `compare` raises. */
  lemma {:induction false} CompareWithoutOperator(vars: map<string, Value>, expr: string)
    requires forall k :: 0 <= k < |Operators| ==> !Contains(expr, Operators[k])
    ensures Compared(vars, expr) == None
  {
  }

  /** Text made of digits and minus signs contains no operator character. */
  predicate Numeric(s: string) {
    forall k :: 0 <= k < |s| ==> s[k] == '-' || IsDigit(s[k])
  }

  lemma {:induction false} NotStarting(e: string, sep: string, i: nat)
    requires |sep| > 0 && i <= |e| && (i == |e| || e[i] != sep[0])
    ensures !(sep <= e[i..])
  {
  }

  /** A string without the first character of `sep` does not contain `sep`. */
  lemma {:induction false} NoMatchWithout(e: string, sep: string)
    requires |sep| > 0 && Avoids(e, sep[0])
    ensures !Contains(e, sep)
  {
    forall i | 0 <= i < |e| + 1 && i <= |e|
      ensures !(sep <= e[i..])
    {
      NotStarting(e, sep, i);
    }
  }

  lemma {:induction false} AvoidsConcat(a: string, b: string, c: char)
    requires Avoids(a, c) && Avoids(b, c)
    ensures Avoids(a + b, c)
  {
  }

  /** `str(a) + "!=" + str(b)` holds no `==`: its one `=` is followed by a digit or a sign. */
  lemma {:induction false} NoDoubleEquals(x: string, y: string)
    requires Numeric(x) && Numeric(y) && |y| > 0
    ensures !Contains(x + "!=" + y, "==")
  {
    var e := x + "!=" + y;
    forall i | 0 <= i < |e| + 1 && i <= |e|
      ensures !("==" <= e[i..])
    {
      if i == |x| + 1 {
        assert e[i + 1] == y[0];
        assert e[i..][1] == e[i + 1];
      } else if i < |x| {
        assert e[i] == x[i];
        NotStarting(e, "==", i);
      } else if i == |x| {
        NotStarting(e, "==", i);
      } else if i < |e| {
        assert e[i] == y[i - |x| - 2];
        NotStarting(e, "==", i);
      }
    }
  }

  /** Numeric text on both sides of an operator splits back into the two sides. */
  lemma {:induction false} SplitAtOperator(x: string, o: string, y: string)
    requires Numeric(x) && Numeric(y) && |o| > 0 && o[0] != '-' && !IsDigit(o[0])
    ensures Split(x + o + y, o) == [x, y]
  {
    var e := x + o + y;
    forall i | 0 <= i < |x| && i <= |e|
      ensures !(o <= e[i..])
    {
      assert e[i] == x[i];
      NotStarting(e, o, i);
    }
    SplitCons(x, o, y, "");
    forall i | 0 <= i < |y| && i <= |y|
      ensures !(o <= y[i..])
    {
      NotStarting(y, o, i);
    }
    SplitWhole(y, o, "");
    assert "" + x == x && "" + y == y;
  }

  /** `str(a) + op + str(b)` holds `op` only at the one place it was put. */
  lemma {:induction false} OperatorAlone(x: string, op: nat, y: string)
    requires Numeric(x) && Numeric(y) && |y| > 0 && op < |Operators|
    ensures Operator(x + Operators[op] + y) == Some(op)
    ensures Split(x + Operators[op] + y, Operators[op]) == [x, y]
  {
    var o := Operators[op];
    var e := x + o + y;
    assert Contains(e, o) by {
      assert e[|x|..][..|o|] == o;
    }
    if op == 1 {
      NoDoubleEquals(x, y);
    } else if op >= 2 {
      assert Avoids(o, '=') && Avoids(o, '!');
      AvoidsConcat(x, o, '=');
      AvoidsConcat(x + o, y, '=');
      AvoidsConcat(x, o, '!');
      AvoidsConcat(x + o, y, '!');
      NoMatchWithout(e, "==");
      NoMatchWithout(e, "!=");
      if op == 3 {
        AvoidsConcat(x, o, '<');
        AvoidsConcat(x + o, y, '<');
        NoMatchWithout(e, "<");
      }
    }
    SplitAtOperator(x, o, y);
  }

  /** `compare("3<5")` is true: the operator, then the two sides, as Python compares them. */
  lemma {:induction false} CompareLiterals(vars: map<string, Value>, a: int, op: nat, b: int)
    requires op < |Operators|
    ensures Compared(vars, IntToString(a) + Operators[op] + IntToString(b)) == Some(Holds(op, a, b))
  {
    var x, y := IntToString(a), IntToString(b);
    IntToStringChars(a);
    IntToStringChars(b);
    OperatorAlone(x, op, y);
    EvaluateLiteral(vars, a, "");
    EvaluateLiteral(vars, b, "");
    assert x + "" == x && y + "" == y;
  }

  // ---------------------------------------------------------------- the commands

  /** `stash`: the four registers pushed in order; Python raises if one was killed. */
  function StashOf(c: Ctx): (r: Option<Ctx>)
  {
    if "ax" in c.vars && "bx" in c.vars && "cx" in c.vars && "dx" in c.vars then
      Some(c.(stack := c.stack + [c.vars["ax"], c.vars["bx"], c.vars["cx"], c.vars["dx"]]))
    else None
  }

  /** `restore`: the registers popped in reverse order; Python raises on a short stack. */
  function RestoreOf(c: Ctx): (r: Option<Ctx>)
  {
    var s := c.stack;
    var n := |s|;
    if n < 4 then None
    else
      Some(Ctx(c.vars["dx" := s[n - 1]]["cx" := s[n - 2]]["bx" := s[n - 3]]["ax" := s[n - 4]],
               s[..n - 4], c.bufs))
  }

  /** The values of comma-separated expressions, left to right; None once one raises. */
  function Values(vars: map<string, Value>, args: seq<string>): (r: Option<seq<int>>)
    ensures r.Some? ==> |r.value| == |args|
  {
    if |args| == 0 then Some([])
    else
      match Values(vars, args[..|args| - 1])
      case None => None
      case Some(vs) =>
        match ValueOf(vars, Strip(args[|args| - 1]))
        case None => None
        case Some(v) => Some(vs + [v])
  }

  /** `push e1, e2, ...`: each expression's value pushed, in order. */
  function PushOf(c: Ctx, code: string): (r: Option<Ctx>)
  {
    match Values(c.vars, Split(Drop(code, 4), ","))
    case None => None
    case Some(vs) => Some(c.(stack := c.stack + Ints(vs)))
  }

  /** Popping into the named variables, the last name first; None on an empty stack. */
  function PopInto(c: Ctx, names: seq<string>): (r: Option<Ctx>)
    decreases |names|
  {
    if |names| == 0 then Some(c)
    else if |c.stack| == 0 then None
    else
      var top := c.stack[|c.stack| - 1];
      PopInto(Ctx(c.vars[Strip(names[|names| - 1]) := top], c.stack[..|c.stack| - 1], c.bufs),
              names[..|names| - 1])
  }

  /** `pop x, y, ...`. */
  function PopOf(c: Ctx, code: string): (r: Option<Ctx>)
  {
    PopInto(c, Split(Drop(code, 3), ","))
  }

  /** `and a, b > d`: `d` set to 1 when both values are nonzero, else 0. */
  function AndOf(c: Ctx, code: string): (r: Option<Ctx>)
  {
    var args := Split(Drop(code, 3), ">");
    if |args| < 2 then None
    else
      var dest := Strip(args[1]);
      var sources := Split(args[0], ",");
      match ValueOf(c.vars, Strip(sources[0]))
      case None => None
      case Some(left) =>
        if |sources| < 2 then None
        else
          match ValueOf(c.vars, Strip(sources[1]))
          case None => None
          case Some(right) =>
            Some(c.(vars := c.vars[dest := IntV(if left != 0 && right != 0 then 1 else 0)]))
  }

  function Zeros(n: int): (r: seq<int>)
    ensures |r| == (if n < 0 then 0 else n) && forall k :: 0 <= k < |r| ==> r[k] == 0
  {
    seq(if n < 0 then 0 else n, k => 0)
  }

  /** `buffer b n`: `b` set to a new list of `n` zeros. */
  function BufferOf(c: Ctx, code: string): (r: Option<Ctx>)
  {
    var args := Split(Strip(Drop(code, 6)), " ");
    if |args| < 2 then None
    else
      var buffer := Strip(args[0]);
      match ValueOf(c.vars, Strip(args[1]))
      case None => None
      case Some(n) => Some(Ctx(c.vars[buffer := BufV(|c.bufs|)], c.stack, c.bufs + [Zeros(n)]))
  }

  /** `kill x`: `x` removed, if it is there. */
  function KillOf(c: Ctx, code: string): Ctx
  {
    c.(vars := c.vars - {Strip(Drop(code, 4))})
  }

  /** Python's `list[i]` position: negative indices count from the end. */
  function Index(n: nat, i: int): (r: Option<nat>)
    ensures r.Some? ==> r.value < n
  {
    if 0 <= i < n then Some(i) else if i < 0 && 0 <= n + i then Some(n + i) else None
  }

  /** `read b i d`: `d` set to the element at index `i` of the list in `b`. */
  function ReadOf(c: Ctx, code: string): (r: Option<Ctx>)
  {
    var args := Split(Strip(Drop(code, 4)), " ");
    if |args| < 2 then None
    else
      var buffer := Strip(args[0]);
      match ValueOf(c.vars, Strip(args[1]))
      case None => None
      case Some(index) =>
        if |args| < 3 then None
        else
          var dest := Strip(args[2]);
          if buffer !in c.vars || !c.vars[buffer].BufV? || c.vars[buffer].ref >= |c.bufs| then None
          else
            var list := c.bufs[c.vars[buffer].ref];
            match Index(|list|, index)
            case None => None
            case Some(i) => Some(c.(vars := c.vars[dest := IntV(list[i])]))
  }

  /** `write b i v`: the element at index `i` of the list in `b` set to `v`. */
  function WriteOf(c: Ctx, code: string): (r: Option<Ctx>)
  {
    var args := Split(Strip(Drop(code, 5)), " ");
    if |args| < 2 then None
    else
      var buffer := Strip(args[0]);
      match ValueOf(c.vars, Strip(args[1]))
      case None => None
      case Some(index) =>
        if |args| < 3 then None
        else
          match ValueOf(c.vars, Strip(args[2]))
          case None => None
          case Some(v) =>
            if buffer !in c.vars || !c.vars[buffer].BufV? || c.vars[buffer].ref >= |c.bufs| then None
            else
              var ref := c.vars[buffer].ref;
              match Index(|c.bufs[ref]|, index)
              case None => None
              case Some(i) => Some(c.(bufs := c.bufs[ref := c.bufs[ref][i := v]]))
  }

  /** `set x = e`. */
  function SetOf(c: Ctx, code: string): (r: Option<Ctx>)
  {
    var parts := Split(Drop(code, 4), "=");
    if |parts| < 2 then None
    else
      match ValueOf(c.vars, Strip(parts[1]))
      case None => None
      case Some(v) => Some(c.(vars := c.vars[Strip(parts[0]) := IntV(v)]))
  }

  function Continuing(r: Option<Ctx>): Option<(Ctx, Effect)> {
    match r
    case None => None
    case Some(c) => Some((c, Continue))
  }

  /** `line.execute(context)`: the new data and what the loop does next; None where Python raises. */
  function Exec(c: Ctx, line: Line): Option<(Ctx, Effect)>
  {
    match line.kind
    case Superbu => Some((c, Exit))
    case Print => Some((c, Continue))
    case Jump => Some((c, Call(Drop(line.code, 5))))
    case Return => Some((c, Effect.Return))
    case Set => Continuing(SetOf(c, line.code))
    case Push => Continuing(PushOf(c, line.code))
    case Pop => Continuing(PopOf(c, line.code))
    case Stash => Continuing(StashOf(c))
    case Restore => Continuing(RestoreOf(c))
    case And => Continuing(AndOf(c, line.code))
    case Buffer => Continuing(BufferOf(c, line.code))
    case Kill => Some((KillOf(c, line.code), Continue))
    case Read => Continuing(ReadOf(c, line.code))
    case Write => Continuing(WriteOf(c, line.code))
  }

  // ---------------------------------------------------------------- properties of the commands

  /** `stash` then `restore` gives back the registers and the stack. */
  lemma {:induction false} StashRestore(c: Ctx)
    requires "ax" in c.vars && "bx" in c.vars && "cx" in c.vars && "dx" in c.vars
    ensures StashOf(c).Some? && RestoreOf(StashOf(c).value) == Some(c)
  {
    var s := StashOf(c).value;
    var v := c.vars;
    assert s.stack[..|c.stack|] == c.stack;
    assert v["dx" := v["dx"]]["cx" := v["cx"]]["bx" := v["bx"]]["ax" := v["ax"]] == v;
  }

  /** Removing the command word takes off exactly its letters. */
  lemma {:induction false} DropWord(word: string, rest: string)
    ensures Drop(word + rest, |word|) == rest
  {
    if |rest| > 0 {
      assert (word + rest)[|word|..] == rest;
    }
  }

  /** The names `pop` assigns: each argument stripped. */
  function Names(xs: seq<string>): (r: seq<string>)
    ensures |r| == |xs| && forall k :: 0 <= k < |xs| ==> r[k] == Strip(xs[k])
  {
    seq(|xs|, k requires 0 <= k < |xs| => Strip(xs[k]))
  }

  /** `names[k]` does not occur earlier in `names`. */
  predicate FirstAt(names: seq<string>, k: nat)
    requires k < |names|
  {
    forall j :: 0 <= j < k ==> names[j] != names[k]
  }

  /** The variables after `vals[k]` is written into `names[k]`, the last position first, as `pop` does. */
  function Assigned(vars: map<string, Value>, names: seq<string>, vals: seq<int>): map<string, Value>
    requires |names| == |vals|
    decreases |names|
  {
    if |names| == 0 then vars
    else
      Assigned(vars[names[|names| - 1] := IntV(vals[|vals| - 1])], names[..|names| - 1], vals[..|vals| - 1])
  }

  /** Popping values that were pushed in order assigns them and leaves the stack below them. */
  lemma {:induction false} PopIsAssigned(c: Ctx, base: seq<Value>, xs: seq<string>, vals: seq<int>)
    requires |xs| == |vals| && c.stack == base + Ints(vals)
    ensures PopInto(c, xs) == Some(Ctx(Assigned(c.vars, Names(xs), vals), base, c.bufs))
    decreases |xs|
  {
    if |xs| == 0 {
      assert c.stack == base;
    } else {
      var n := |xs|;
      assert c.stack[|c.stack| - 1] == IntV(vals[n - 1]);
      var c' := Ctx(c.vars[Strip(xs[n - 1]) := IntV(vals[n - 1])], c.stack[..|c.stack| - 1], c.bufs);
      assert c'.stack == base + Ints(vals[..n - 1]);
      assert Names(xs[..n - 1]) == Names(xs)[..n - 1];
      PopIsAssigned(c', base, xs[..n - 1], vals[..n - 1]);
    }
  }

  /** A variable is there afterwards exactly when it was there before or is one of the names. */
  lemma {:induction false} AssignedDomain(vars: map<string, Value>, names: seq<string>, vals: seq<int>)
    requires |names| == |vals|
    ensures forall y :: y in Assigned(vars, names, vals) <==> y in vars || y in names
    decreases |names|
  {
    if |names| > 0 {
      var n := |names|;
      AssignedDomain(vars[names[n - 1] := IntV(vals[n - 1])], names[..n - 1], vals[..n - 1]);
      assert names == names[..n - 1] + [names[n - 1]];
    }
  }

  /** A variable that is not one of the names keeps its value. */
  lemma {:induction false} AssignedKeeps(vars: map<string, Value>, names: seq<string>, vals: seq<int>, y: string)
    requires |names| == |vals| && y in vars && y !in names
    ensures y in Assigned(vars, names, vals) && Assigned(vars, names, vals)[y] == vars[y]
    decreases |names|
  {
    if |names| > 0 {
      var n := |names|;
      assert names[n - 1] != y;
      assert y !in names[..n - 1] by {
        assert forall j :: 0 <= j < n - 1 ==> names[..n - 1][j] == names[j];
      }
      AssignedKeeps(vars[names[n - 1] := IntV(vals[n - 1])], names[..n - 1], vals[..n - 1], y);
    }
  }

  /**
   * Each name gets the value in its first position: a repeated name is written again by its
   * earlier position, which pops later.
   */
  lemma {:induction false} AssignedFirst(vars: map<string, Value>, names: seq<string>, vals: seq<int>, k: nat)
    requires |names| == |vals| && k < |names| && FirstAt(names, k)
    ensures names[k] in Assigned(vars, names, vals) && Assigned(vars, names, vals)[names[k]] == IntV(vals[k])
    decreases |names|
  {
    var n := |names|;
    var v' := vars[names[n - 1] := IntV(vals[n - 1])];
    if k < n - 1 {
      assert FirstAt(names[..n - 1], k);
      AssignedFirst(v', names[..n - 1], vals[..n - 1], k);
    } else {
      assert names[k] !in names[..n - 1];
      AssignedKeeps(v', names[..n - 1], vals[..n - 1], names[k]);
    }
  }

  /** `push e1, ..., en` followed by `pop x1, ..., xn`: the names hold the values, the stack is as before. */
  lemma {:induction false} PushThenPop(c: Ctx, es: seq<string>, xs: seq<string>, vals: seq<int>)
    requires |es| >= 1 && |es| == |xs| == |vals|
    requires forall k :: 0 <= k < |es| ==> Avoids(es[k], ',') && ValueOf(c.vars, Strip(es[k])) == Some(vals[k])
    requires forall k :: 0 <= k < |xs| ==> Avoids(xs[k], ',')
    ensures PushOf(c, "push" + Join(es, ",")) == Some(c.(stack := c.stack + Ints(vals)))
    ensures PopOf(c.(stack := c.stack + Ints(vals)), "pop" + Join(xs, ",")).Some?
    ensures var d := PopOf(c.(stack := c.stack + Ints(vals)), "pop" + Join(xs, ",")).value;
      && d.stack == c.stack && d.bufs == c.bufs
      && (forall y :: y in d.vars <==> y in c.vars || y in Names(xs))
      && (forall y :: y in c.vars && y !in Names(xs) ==> d.vars[y] == c.vars[y])
      && (forall k :: 0 <= k < |xs| && FirstAt(Names(xs), k) ==> d.vars[Names(xs)[k]] == IntV(vals[k]))
  {
    DropWord("push", Join(es, ","));
    DropWord("pop", Join(xs, ","));
    assert "," == [','];
    SplitJoinChar(es, ',');
    SplitJoinChar(xs, ',');
    ValuesAll(c.vars, es, vals);
    PopIsAssigned(c.(stack := c.stack + Ints(vals)), c.stack, xs, vals);
    var ns := Names(xs);
    AssignedDomain(c.vars, ns, vals);
    forall y | y in c.vars && y !in ns
      ensures Assigned(c.vars, ns, vals)[y] == c.vars[y]
    {
      AssignedKeeps(c.vars, ns, vals, y);
    }
    forall k | 0 <= k < |xs| && FirstAt(ns, k)
      ensures Assigned(c.vars, ns, vals)[ns[k]] == IntV(vals[k])
    {
      AssignedFirst(c.vars, ns, vals, k);
    }
  }

  lemma {:induction false} ValuesAll(vars: map<string, Value>, es: seq<string>, vals: seq<int>)
    requires |es| == |vals|
    requires forall k :: 0 <= k < |es| ==> ValueOf(vars, Strip(es[k])) == Some(vals[k])
    ensures Values(vars, es) == Some(vals)
  {
    ValuesUpTo(vars, es, vals, |es|);
    assert es[..|es|] == es && vals[..|vals|] == vals;
  }

  /** The first `n` expressions of a list whose expressions all have values. */
  lemma {:induction false} ValuesUpTo(vars: map<string, Value>, es: seq<string>, vals: seq<int>, n: nat)
    requires n <= |es| == |vals|
    requires forall k :: 0 <= k < |es| ==> ValueOf(vars, Strip(es[k])) == Some(vals[k])
    ensures Values(vars, es[..n]) == Some(vals[..n])
    decreases n
  {
    if n == 0 {
      assert es[..0] == [];
    } else {
      ValuesUpTo(vars, es, vals, n - 1);
      ValuesStep(vars, es, vals, n);
    }
  }

  /** One more expression with a value extends the values of the prefix before it. */
  lemma {:induction false} ValuesStep(vars: map<string, Value>, es: seq<string>, vals: seq<int>, n: nat)
    requires 0 < n <= |es| == |vals| && Values(vars, es[..n - 1]) == Some(vals[..n - 1])
    requires ValueOf(vars, Strip(es[n - 1])) == Some(vals[n - 1])
    ensures Values(vars, es[..n]) == Some(vals[..n])
  {
    var front := es[..n];
    assert front[..|front| - 1] == es[..n - 1] && front[|front| - 1] == es[n - 1];
    assert vals[..n - 1] + [vals[n - 1]] == vals[..n];
  }

  /** A failure at one expression of a `push` is a failure of the whole list. */
  lemma {:induction false} ValuesPrefixFails(vars: map<string, Value>, args: seq<string>, k: nat)
    requires k <= |args| && Values(vars, args[..k]).None?
    ensures Values(vars, args).None?
    decreases |args| - k
  {
    if k < |args| {
      assert args[..k + 1][..k] == args[..k];
      ValuesPrefixFails(vars, args, k + 1);
    } else {
      assert args[..k] == args;
    }
  }

  /** One more expression evaluated: its value joins the list. */
  lemma {:induction false} ValuesNext(vars: map<string, Value>, args: seq<string>, k: nat, vs: seq<int>, v: int)
    requires k < |args| && Values(vars, args[..k]) == Some(vs)
    requires ValueOf(vars, Strip(args[k])) == Some(v)
    ensures Values(vars, args[..k + 1]) == Some(vs + [v])
  {
    assert args[..k + 1][..k] == args[..k];
  }

  /** When an expression raises, the list raises with it. */
  lemma {:induction false} ValuesNextFails(vars: map<string, Value>, args: seq<string>, k: nat, vs: seq<int>)
    requires k < |args| && Values(vars, args[..k]) == Some(vs)
    requires ValueOf(vars, Strip(args[k])).None?
    ensures Values(vars, args).None?
  {
    assert args[..k + 1][..k] == args[..k];
    ValuesPrefixFails(vars, args, k + 1);
  }

  lemma {:induction false} IntsSnoc(vs: seq<int>, v: int)
    ensures Ints(vs + [v]) == Ints(vs) + [IntV(v)]
  {
  }

  /** `and a, b > d` stores 1 exactly when both values are nonzero. */
  lemma {:induction false} AndStores(c: Ctx, l: string, r: string, d: string, a: int, b: int)
    requires Avoids(l, ',') && Avoids(l, '>') && Avoids(r, ',') && Avoids(r, '>') && Avoids(d, '>')
    requires ValueOf(c.vars, Strip(l)) == Some(a) && ValueOf(c.vars, Strip(r)) == Some(b)
    ensures AndOf(c, "and" + l + "," + r + ">" + d)
         == Some(c.(vars := c.vars[Strip(d) := IntV(if a != 0 && b != 0 then 1 else 0)]))
  {
    var src := l + "," + r;
    assert "and" + l + "," + r + ">" + d == "and" + (src + ">" + d);
    DropWord("and", src + ">" + d);
    assert Avoids(src, '>') by {
      assert forall k :: 0 <= k < |src| ==> src[k] == if k < |l| then l[k] else if k == |l| then ',' else r[k - |l| - 1];
    }
    assert Join([src, d], ">") == src + ">" + d;
    assert ">" == ['>'] && "," == [','];
    SplitJoinChar([src, d], '>');
    assert Join([l, r], ",") == src;
    SplitJoinChar([l, r], ',');
  }

  /** A command `word a b ...` whose fields hold no spaces splits back into its fields. */
  lemma {:induction false} Fields(word: string, fs: seq<string>)
    requires |fs| >= 1 && forall k :: 0 <= k < |fs| ==> |fs[k]| > 0 && NoSpace(fs[k])
    ensures Split(Strip(Drop(word + " " + Join(fs, " "), |word|)), " ") == fs
    ensures forall k :: 0 <= k < |fs| ==> Strip(fs[k]) == fs[k]
  {
    var j := Join(fs, " ");
    assert word + " " + j == word + (" " + j);
    DropWord(word, " " + j);
    JoinEnds(fs, " ");
    assert AllSpace(" ") && AllSpace("");
    StripPadded(" ", j, "");
    assert " " + j + "" == " " + j;
    forall k | 0 <= k < |fs|
      ensures Avoids(fs[k], ' ') && Strip(fs[k]) == fs[k]
    {
      StripNoSpace(fs[k]);
    }
    assert " " == [' '];
    SplitJoinChar(fs, ' ');
  }

  /** A join of non-empty pieces starts with the first piece's first character and ends with the last's last. */
  lemma {:induction false} JoinEnds(fs: seq<string>, sep: string)
    requires |fs| >= 1 && forall k :: 0 <= k < |fs| ==> |fs[k]| > 0
    ensures |Join(fs, sep)| > 0
    ensures Join(fs, sep)[0] == fs[0][0]
    ensures Join(fs, sep)[|Join(fs, sep)| - 1] == fs[|fs| - 1][|fs[|fs| - 1]| - 1]
    decreases |fs|
  {
    if |fs| > 1 {
      var rest := fs[1..];
      assert forall k :: 0 <= k < |rest| ==> rest[k] == fs[k + 1];
      JoinEnds(rest, sep);
      var head := fs[0] + sep;
      var tail := Join(rest, sep);
      assert Join(fs, sep) == head + tail;
      assert rest[|rest| - 1] == fs[|fs| - 1];
      assert (head + tail)[|head + tail| - 1] == tail[|tail| - 1];
      assert (head + tail)[0] == head[0] == fs[0][0];
    }
  }

  /** `buffer b n` makes `b` refer to a new list of `n` zeros (none when `n` is negative). */
  lemma {:induction false} BufferCreates(c: Ctx, b: string, e: string, n: int)
    requires |b| > 0 && NoSpace(b) && |e| > 0 && NoSpace(e)
    requires ValueOf(c.vars, e) == Some(n)
    ensures BufferOf(c, "buffer " + b + " " + e).Some?
    ensures var d := BufferOf(c, "buffer " + b + " " + e).value;
      && d.vars == c.vars[b := BufV(|c.bufs|)] && d.stack == c.stack
      && |d.bufs| == |c.bufs| + 1 && d.bufs[..|c.bufs|] == c.bufs
      && |d.bufs[|c.bufs|]| == (if n < 0 then 0 else n)
      && forall k :: 0 <= k < |d.bufs[|c.bufs|]| ==> d.bufs[|c.bufs|][k] == 0
  {
    assert "buffer " + b + " " + e == "buffer" + " " + Join([b, e], " ");
    Fields("buffer", [b, e]);
    var d := BufferOf(c, "buffer " + b + " " + e).value;
    assert d.bufs[..|c.bufs|] == c.bufs;
  }

  predicate Word(s: string) {
    |s| > 0 && NoSpace(s)
  }

  /** `write b i v`, its fields holding no spaces, sets one element of the list in `b`. */
  lemma {:induction false} WriteAt(c: Ctx, b: string, i: string, v: string, index: int, val: int)
    requires Wf(c) && Word(b) && Word(i) && Word(v)
    requires b in c.vars && c.vars[b].BufV?
    requires ValueOf(c.vars, i) == Some(index) && ValueOf(c.vars, v) == Some(val)
    requires Index(|c.bufs[c.vars[b].ref]|, index).Some?
    ensures var ref := c.vars[b].ref;
      WriteOf(c, "write " + b + " " + i + " " + v)
        == Some(c.(bufs := c.bufs[ref := c.bufs[ref][Index(|c.bufs[ref]|, index).value := val]]))
  {
    assert [b, i, v][1..] == [i, v];
    assert Join([i, v], " ") == i + " " + v by {
      assert [i, v][1..] == [v];
    }
    assert Join([b, i, v], " ") == b + " " + (i + " " + v);
    assert "write " + b + " " + i + " " + v == "write" + " " + Join([b, i, v], " ");
    Fields("write", [b, i, v]);
  }

  /** `read b i d`, its fields holding no spaces, copies one element of the list in `b` into `d`. */
  lemma {:induction false} ReadAt(c: Ctx, b: string, i: string, d: string, index: int)
    requires Wf(c) && Word(b) && Word(i) && Word(d)
    requires b in c.vars && c.vars[b].BufV? && ValueOf(c.vars, i) == Some(index)
    requires Index(|c.bufs[c.vars[b].ref]|, index).Some?
    ensures var list := c.bufs[c.vars[b].ref];
      ReadOf(c, "read " + b + " " + i + " " + d)
        == Some(c.(vars := c.vars[d := IntV(list[Index(|list|, index).value])]))
  {
    assert [b, i, d][1..] == [i, d];
    assert Join([i, d], " ") == i + " " + d by {
      assert [i, d][1..] == [d];
    }
    assert Join([b, i, d], " ") == b + " " + (i + " " + d);
    assert "read " + b + " " + i + " " + d == "read" + " " + Join([b, i, d], " ");
    Fields("read", [b, i, d]);
  }

  /**
   * `write b i v` then `read b2 i d`, where `b2` holds the same list as `b`, gives `d` the
   * value `v`: the write reaches every holder of the list.
   */
  lemma {:induction false} WriteThenRead(c: Ctx, b: string, b2: string, i: string, v: string, d: string,
                      index: int, val: int)
    requires Wf(c) && Word(b) && Word(b2) && Word(i) && Word(v) && Word(d)
    requires b in c.vars && c.vars[b].BufV? && b2 in c.vars && c.vars[b2] == c.vars[b]
    requires ValueOf(c.vars, i) == Some(index) && ValueOf(c.vars, v) == Some(val)
    requires Index(|c.bufs[c.vars[b].ref]|, index).Some?
    ensures WriteOf(c, "write " + b + " " + i + " " + v).Some?
    ensures var w := WriteOf(c, "write " + b + " " + i + " " + v).value;
      && ReadOf(w, "read " + b2 + " " + i + " " + d).Some?
      && d in ReadOf(w, "read " + b2 + " " + i + " " + d).value.vars
      && ReadOf(w, "read " + b2 + " " + i + " " + d).value.vars[d] == IntV(val)
  {
    WriteAt(c, b, i, v, index, val);
    var ref := c.vars[b].ref;
    var k := Index(|c.bufs[ref]|, index).value;
    var w := c.(bufs := c.bufs[ref := c.bufs[ref][k := val]]);
    assert w.vars == c.vars && |w.bufs[ref]| == |c.bufs[ref]|;
    assert w.vars[b2].ref == ref;
    assert Index(|w.bufs[ref]|, index).value == k;
    assert w.bufs[ref][k] == val;
    ReadAt(w, b2, i, d, index);
    var rc := "read " + b2 + " " + i + " " + d;
    assert WriteOf(c, "write " + b + " " + i + " " + v).value == w;
    assert ReadOf(w, rc).value.vars == w.vars[d := IntV(val)];
  }

  /** `write` changes one element of one list and nothing else. */
  lemma {:induction false} WriteChangesOneElement(c: Ctx, code: string)
    requires WriteOf(c, code).Some?
    ensures var w := WriteOf(c, code).value;
      && w.vars == c.vars && w.stack == c.stack && |w.bufs| == |c.bufs|
      && exists r, k :: 0 <= r < |c.bufs| && 0 <= k < |c.bufs[r]|
           && w.bufs == c.bufs[r := c.bufs[r][k := w.bufs[r][k]]]
  {
    var args := Split(Strip(Drop(code, 5)), " ");
    var buffer := Strip(args[0]);
    var ref := c.vars[buffer].ref;
    var index := ValueOf(c.vars, Strip(args[1])).value;
    var i := Index(|c.bufs[ref]|, index).value;
    var w := WriteOf(c, code).value;
    assert w.bufs == c.bufs[ref := c.bufs[ref][i := w.bufs[ref][i]]];
  }

  /** `kill x` forgets `x` and only `x`; killing an absent name changes nothing. */
  lemma {:induction false} KillForgets(c: Ctx, x: string)
    requires |x| > 0 && NoSpace(x)
    ensures var d := KillOf(c, "kill " + x);
      && x !in d.vars && d.stack == c.stack && d.bufs == c.bufs
      && (forall y :: y != x ==> (y in d.vars <==> y in c.vars))
      && (forall y :: y != x && y in c.vars ==> d.vars[y] == c.vars[y])
      && (x !in c.vars ==> d == c)
  {
    assert "kill " + x == "kill" + (" " + x);
    DropWord("kill", " " + x);
    assert AllSpace(" ") && AllSpace("");
    StripPadded(" ", x, "");
    assert " " + x + "" == " " + x;
    if x !in c.vars {
      assert c.vars - {x} == c.vars;
    }
  }

  /** `set x = e` binds `x` to the value of `e`. */
  lemma {:induction false} SetBinds(c: Ctx, x: string, e: string, n: int)
    requires Avoids(x, '=') && Avoids(e, '=') && ValueOf(c.vars, Strip(e)) == Some(n)
    ensures SetOf(c, "set " + x + "=" + e) == Some(c.(vars := c.vars[Strip(x) := IntV(n)]))
  {
    assert "set " + x + "=" + e == "set " + (x + "=" + e);
    DropWord("set ", x + "=" + e);
    assert "=" == ['='];
    assert Join([x, e], "=") == x + "=" + e;
    SplitJoinChar([x, e], '=');
  }

  // ---------------------------------------------------------------- the store stays well formed

  lemma {:induction false} PopKeepsWf(c: Ctx, names: seq<string>)
    requires Wf(c) && PopInto(c, names).Some?
    ensures Wf(PopInto(c, names).value)
    decreases |names|
  {
    if |names| > 0 {
      var top := c.stack[|c.stack| - 1];
      PopKeepsWf(Ctx(c.vars[Strip(names[|names| - 1]) := top], c.stack[..|c.stack| - 1], c.bufs),
                 names[..|names| - 1]);
    }
  }

  lemma {:induction false} BufferKeepsWf(c: Ctx, code: string)
    requires Wf(c) && BufferOf(c, code).Some?
    ensures Wf(BufferOf(c, code).value)
  {
    var d := BufferOf(c, code).value;
    assert forall x :: x in c.vars ==> Refers(c.vars[x], d.bufs);
  }

  lemma {:induction false} WriteKeepsWf(c: Ctx, code: string)
    requires Wf(c) && WriteOf(c, code).Some?
    ensures Wf(WriteOf(c, code).value)
  {
  }

  /** No command leaves a variable or a stack slot holding a list that is not in the store. */
  lemma {:induction false} ExecKeepsWf(c: Ctx, line: Line)
    requires Wf(c) && Exec(c, line).Some?
    ensures Wf(Exec(c, line).value.0)
  {
    match line.kind
    case Pop => PopKeepsWf(c, Split(Drop(line.code, 3), ","));
    case Buffer => BufferKeepsWf(c, line.code);
    case Write => WriteKeepsWf(c, line.code);
    case _ =>
  }

  // ---------------------------------------------------------------- the Context object

  class Context {
    var vars: map<string, Value>
    var stack: seq<Value>
    var bufs: seq<seq<int>>

    function State(): Ctx
      reads this
    {
      Ctx(vars, stack, bufs)
    }

    predicate Valid()
      reads this
    {
      Wf(State())
    }

    constructor()
      ensures State() == Initial() && Valid()
    {
      vars := map["ax" := IntV(0), "bx" := IntV(0), "cx" := IntV(0), "dx" := IntV(0)];
      stack := [];
      bufs := [];
    }

    /** `evaluate`: the loop over trailing signs, then the literal or the variable. */
    method Evaluate(expr: string) returns (r: Option<int>)
      ensures r == ValueOf(vars, expr)
    {
      var e := expr;
      var inc := 0;
      while true
        invariant Trailing(expr) == (Trailing(e).0, Trailing(e).1 + inc)
        decreases |e|
      {
        if |e| > 0 && e[|e| - 1] == '+' {
          inc := inc + 1;
        } else if |e| > 0 && e[|e| - 1] == '-' {
          inc := inc - 1;
        } else {
          break;
        }
        e := e[..|e| - 1];
      }
      e := Strip(e);
      if |e| == 0 {
        return None;
      }
      var val: int;
      if e[0] == '$' {
        var name := Strip(e[1..]);
        if name !in vars {
          return None;
        }
        match vars[name] {
          case BufV(_) => return None;
          case IntV(i) => val := i;
        }
      } else {
        var parsed := ParseInt(e);
        if parsed.None? {
          return None;
        }
        val := parsed.value;
      }
      return Some(val + inc);
    }

    /** `compare`. */
    method Compare(expr: string) returns (r: Option<bool>)
      ensures r == Compared(vars, expr)
    {
      var op := Operator(expr);
      if op.None? {
        return None;
      }
      ContainsSplits(expr, Operators[op.value]);
      var parts := Split(expr, Operators[op.value]);
      var left := Evaluate(parts[0]);
      if left.None? {
        return None;
      }
      var right := Evaluate(parts[1]);
      if right.None? {
        return None;
      }
      return Some(Holds(op.value, left.value, right.value));
    }

    method Stash() returns (ok: bool)
      modifies this
      ensures ok <==> StashOf(old(State())).Some?
      ensures ok ==> State() == StashOf(old(State())).value
    {
      if !("ax" in vars && "bx" in vars && "cx" in vars && "dx" in vars) {
        return false;
      }
      stack := stack + [vars["ax"]];
      stack := stack + [vars["bx"]];
      stack := stack + [vars["cx"]];
      stack := stack + [vars["dx"]];
      return true;
    }

    method Restore() returns (ok: bool)
      modifies this
      ensures ok <==> RestoreOf(old(State())).Some?
      ensures ok ==> State() == RestoreOf(old(State())).value
    {
      if |stack| < 4 {
        return false;
      }
      vars := vars["dx" := stack[|stack| - 1]];
      stack := stack[..|stack| - 1];
      vars := vars["cx" := stack[|stack| - 1]];
      stack := stack[..|stack| - 1];
      vars := vars["bx" := stack[|stack| - 1]];
      stack := stack[..|stack| - 1];
      vars := vars["ax" := stack[|stack| - 1]];
      stack := stack[..|stack| - 1];
      return true;
    }

    /** `push`: the loop over the comma-separated expressions. */
    method Push(code: string) returns (ok: bool)
      modifies this
      ensures ok <==> PushOf(old(State()), code).Some?
      ensures ok ==> State() == PushOf(old(State()), code).value
    {
      var args := Split(Drop(code, 4), ",");
      ghost var vs: seq<int> := [];
      for k := 0 to |args|
        invariant vars == old(vars) && bufs == old(bufs)
        invariant Values(vars, args[..k]) == Some(vs)
        invariant stack == old(stack) + Ints(vs)
      {
        var v := Evaluate(Strip(args[k]));
        if v.None? {
          ValuesNextFails(vars, args, k, vs);
          return false;
        }
        ValuesNext(vars, args, k, vs, v.value);
        IntsSnoc(vs, v.value);
        stack := stack + [IntV(v.value)];
        vs := vs + [v.value];
      }
      assert args[..|args|] == args;
      return true;
    }

    /** `pop`: the loop from the last name back to the first. */
    method Pop(code: string) returns (ok: bool)
      modifies this
      ensures ok <==> PopOf(old(State()), code).Some?
      ensures ok ==> State() == PopOf(old(State()), code).value
    {
      var args := Split(Drop(code, 3), ",");
      var i := |args|;
      assert args[..i] == args;
      while i > 0
        invariant 0 <= i <= |args|
        invariant PopInto(State(), args[..i]) == PopInto(old(State()), args)
      {
        if |stack| == 0 {
          return false;
        }
        assert args[..i][..i - 1] == args[..i - 1];
        vars := vars[Strip(args[i - 1]) := stack[|stack| - 1]];
        stack := stack[..|stack| - 1];
        i := i - 1;
      }
      return true;
    }

    method And(code: string) returns (ok: bool)
      modifies this
      ensures ok <==> AndOf(old(State()), code).Some?
      ensures ok ==> State() == AndOf(old(State()), code).value
    {
      var args := Split(Drop(code, 3), ">");
      if |args| < 2 {
        return false;
      }
      var dest := Strip(args[1]);
      var sources := Split(args[0], ",");
      var left := Evaluate(Strip(sources[0]));
      if left.None? || |sources| < 2 {
        return false;
      }
      var right := Evaluate(Strip(sources[1]));
      if right.None? {
        return false;
      }
      vars := vars[dest := IntV(if left.value != 0 && right.value != 0 then 1 else 0)];
      return true;
    }

    /** `buffer`: a new empty list, then the loop appending the zeros. */
    method Buffer(code: string) returns (ok: bool)
      modifies this
      ensures ok <==> BufferOf(old(State()), code).Some?
      ensures ok ==> State() == BufferOf(old(State()), code).value
    {
      var args := Split(Strip(Drop(code, 6)), " ");
      if |args| < 2 {
        return false;
      }
      var buffer := Strip(args[0]);
      var length := Evaluate(Strip(args[1]));
      if length.None? {
        return false;
      }
      var ref := |bufs|;
      vars := vars[buffer := BufV(ref)];
      bufs := bufs + [[]];
      var n := if length.value < 0 then 0 else length.value;
      for i := 0 to n
        invariant ref == |old(bufs)| && bufs == old(bufs) + [Zeros(i)]
        invariant vars == old(vars)[buffer := BufV(ref)] && stack == old(stack)
      {
        assert Zeros(i) + [0] == Zeros(i + 1);
        bufs := bufs[ref := bufs[ref] + [0]];
      }
      assert Zeros(n) == Zeros(length.value);
      return true;
    }

    method Kill(code: string)
      modifies this
      ensures State() == KillOf(old(State()), code)
    {
      vars := vars - {Strip(Drop(code, 4))};
    }

    method Read(code: string) returns (ok: bool)
      modifies this
      ensures ok <==> ReadOf(old(State()), code).Some?
      ensures ok ==> State() == ReadOf(old(State()), code).value
    {
      var args := Split(Strip(Drop(code, 4)), " ");
      if |args| < 2 {
        return false;
      }
      var buffer := Strip(args[0]);
      var index := Evaluate(Strip(args[1]));
      if index.None? || |args| < 3 {
        return false;
      }
      var dest := Strip(args[2]);
      if buffer !in vars || !vars[buffer].BufV? || vars[buffer].ref >= |bufs| {
        return false;
      }
      var list := bufs[vars[buffer].ref];
      var i := Index(|list|, index.value);
      if i.None? {
        return false;
      }
      vars := vars[dest := IntV(list[i.value])];
      return true;
    }

    method Write(code: string) returns (ok: bool)
      modifies this
      ensures ok <==> WriteOf(old(State()), code).Some?
      ensures ok ==> State() == WriteOf(old(State()), code).value
    {
      var args := Split(Strip(Drop(code, 5)), " ");
      if |args| < 2 {
        return false;
      }
      var buffer := Strip(args[0]);
      var index := Evaluate(Strip(args[1]));
      if index.None? || |args| < 3 {
        return false;
      }
      var val := Evaluate(Strip(args[2]));
      if val.None? || buffer !in vars || !vars[buffer].BufV? || vars[buffer].ref >= |bufs| {
        return false;
      }
      var ref := vars[buffer].ref;
      var i := Index(|bufs[ref]|, index.value);
      if i.None? {
        return false;
      }
      bufs := bufs[ref := bufs[ref][i.value := val.value]];
      return true;
    }

    method Set(code: string) returns (ok: bool)
      modifies this
      ensures ok <==> SetOf(old(State()), code).Some?
      ensures ok ==> State() == SetOf(old(State()), code).value
    {
      var parts := Split(Drop(code, 4), "=");
      if |parts| < 2 {
        return false;
      }
      var name := Strip(parts[0]);
      var val := Evaluate(Strip(parts[1]));
      if val.None? {
        return false;
      }
      vars := vars[name := IntV(val.value)];
      return true;
    }

    /** `line.execute(self)`, dispatched on the command. */
    method Execute(line: Line) returns (ok: bool, effect: Effect)
      modifies this
      ensures ok <==> Exec(old(State()), line).Some?
      ensures ok ==> (State(), effect) == Exec(old(State()), line).value
      ensures ok && old(Valid()) ==> Valid()
    {
      effect := Continue;
      ok := true;
      match line.kind {
        case Superbu => effect := Exit;
        case Print =>
        case Jump => effect := Call(Drop(line.code, 5));
        case Return => effect := Effect.Return;
        case Set => ok := Set(line.code);
        case Push => ok := Push(line.code);
        case Pop => ok := Pop(line.code);
        case Stash => ok := Stash();
        case Restore => ok := Restore();
        case And => ok := And(line.code);
        case Buffer => ok := Buffer(line.code);
        case Kill => Kill(line.code);
        case Read => ok := Read(line.code);
        case Write => ok := Write(line.code);
      }
      if ok && old(Valid()) {
        ExecKeepsWf(old(State()), line);
      }
    }
  }
}
