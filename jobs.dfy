/**
 * The job configuration document (cold/cold.py, class Job): `Job.create` reads the
 * `!!`-separated sections, `Job.save` writes them back.
 *
 * The specification functions read the document the way `create` does, one section after
 * another and, inside a section, one line after another; the methods are the loops of the
 * program, proved to compute them. None stands for a raised exception (a bad integer, a
 * function header without an argument count, a constraint line without `=>`).
 */
module ColdJob {
  import opened Wrappers
  import opened Text

  datatype Function = Function(name: string, argCount: string, code: string)

  /** `Job`. The `functions` and `constraints` dictionaries are entry sequences in insertion
      order. */
  datatype Job = Job(
    patternFiles: seq<string>,
    depth: int,
    varShadow: int,
    programSetSize: int,
    programSet: int,
    functions: seq<Function>,
    constants: seq<int>,
    constraints: seq<(int, int)>)

  /** `Job()`: the defaults. */
  const Default := Job([], 1, 1, 1, 1, [], [], [])

  /** Python's `s[n:]`. */
  function Drop(s: string, n: nat): string {
    if n <= |s| then s[n..] else ""
  }

  /** `d[f.name] = f`: an existing entry keeps its position and takes the new value. */
  function PutFunction(fs: seq<Function>, f: Function): (r: seq<Function>)
    ensures |r| == |fs| || r == fs + [f]
  {
    if |fs| == 0 then [f]
    else if fs[0].name == f.name then [f] + fs[1..]
    else [fs[0]] + PutFunction(fs[1..], f)
  }

  /** `d[k] = v` on the constraints dictionary. */
  function PutConstraint(cs: seq<(int, int)>, k: int, v: int): (r: seq<(int, int)>)
    ensures |r| == |cs| || r == cs + [(k, v)]
  {
    if |cs| == 0 then [(k, v)]
    else if cs[0].0 == k then [(k, v)] + cs[1..]
    else [cs[0]] + PutConstraint(cs[1..], k, v)
  }

  predicate DistinctKeys(cs: seq<(int, int)>) {
    forall a, b :: 0 <= a < b < |cs| ==> cs[a].0 != cs[b].0
  }

  /** The value the dictionary holds for `k`, if any. */
  function Lookup(cs: seq<(int, int)>, k: int): Option<int> {
    if |cs| == 0 then None
    else if cs[0].0 == k then Some(cs[0].1)
    else Lookup(cs[1..], k)
  }

  /** After `d[k] = v` the key maps to `v`, every other key is untouched and keys stay unique. */
  lemma {:induction false} PutConstraintLookup(cs: seq<(int, int)>, k: int, v: int, q: int)
    requires DistinctKeys(cs)
    ensures Lookup(PutConstraint(cs, k, v), q) == if q == k then Some(v) else Lookup(cs, q)
    ensures DistinctKeys(PutConstraint(cs, k, v))
  {
    PutConstraintFind(cs, k, v, q);
    PutConstraintKeys(cs, k, v);
  }

  lemma {:induction false} PutConstraintFind(cs: seq<(int, int)>, k: int, v: int, q: int)
    ensures Lookup(PutConstraint(cs, k, v), q) == if q == k then Some(v) else Lookup(cs, q)
  {
    if |cs| > 0 && cs[0].0 != k {
      var r := PutConstraint(cs, k, v);
      assert r[1..] == PutConstraint(cs[1..], k, v);
      PutConstraintFind(cs[1..], k, v, q);
    }
  }

  lemma {:induction false} PutConstraintKeys(cs: seq<(int, int)>, k: int, v: int)
    requires DistinctKeys(cs)
    ensures DistinctKeys(PutConstraint(cs, k, v))
  {
    var r := PutConstraint(cs, k, v);
    if |cs| > 0 {
      if cs[0].0 == k {
        assert forall a :: 0 <= a < |r| ==> r[a].0 == cs[a].0;
      } else {
        PutConstraintKeys(cs[1..], k, v);
        forall b | 1 <= b < |r| ensures r[b].0 != r[0].0 {
          KeyOfPut(cs[1..], k, v, b - 1);
          if r[b].0 != k {
            var j :| 0 <= j < |cs[1..]| && cs[1..][j].0 == r[b].0;
            assert cs[j + 1].0 == r[b].0;
          }
        }
      }
    }
  }

  lemma {:induction false} KeyOfPut(cs: seq<(int, int)>, k: int, v: int, b: int)
    requires 0 <= b < |PutConstraint(cs, k, v)|
    ensures var key := PutConstraint(cs, k, v)[b].0;
            key == k || exists j :: 0 <= j < |cs| && cs[j].0 == key
  {
    if |cs| > 0 && cs[0].0 != k && b > 0 {
      KeyOfPut(cs[1..], k, v, b - 1);
      var key := PutConstraint(cs, k, v)[b].0;
      if key != k {
        var j :| 0 <= j < |cs[1..]| && cs[1..][j].0 == key;
        assert cs[j + 1].0 == key;
      }
    } else if |cs| > 0 && cs[0].0 == k && b > 0 {
      assert PutConstraint(cs, k, v)[b] == cs[b];
    }
  }

  /** A key not yet present is appended at the end. */
  lemma {:induction false} PutConstraintNew(cs: seq<(int, int)>, k: int, v: int)
    requires forall j :: 0 <= j < |cs| ==> cs[j].0 != k
    ensures PutConstraint(cs, k, v) == cs + [(k, v)]
  {
    if |cs| > 0 {
      PutConstraintNew(cs[1..], k, v);
      assert [cs[0]] + (cs[1..] + [(k, v)]) == cs + [(k, v)];
    }
  }

  // --------------------------------------------------------- sections

  /** The `patterns` loop: every non-blank line, stripped, is a pattern file name. */
  function AddPatterns(files: seq<string>, lines: seq<string>): seq<string>
    decreases |lines|
  {
    if |lines| == 0 then files
    else AddPatterns(if Strip(lines[0]) == "" then files else files + [Strip(lines[0])], lines[1..])
  }

  /** The `constants` loop: every non-blank line is an integer. */
  function AddConstants(cs: seq<int>, lines: seq<string>): Option<seq<int>>
    decreases |lines|
  {
    if |lines| == 0 then Some(cs)
    else if Strip(lines[0]) == "" then AddConstants(cs, lines[1..])
    else match ParseInt(Strip(lines[0]))
      case None => None
      case Some(n) => AddConstants(cs + [n], lines[1..])
  }

  /** One `constraints` line `k => v` (further `=>` pieces are ignored). */
  function ParseConstraint(line: string): Option<(int, int)> {
    var parts := Split(line, "=>");
    if |parts| < 2 then None
    else match ParseInt(Strip(parts[0]))
      case None => None
      case Some(k) =>
        match ParseInt(Strip(parts[1]))
        case None => None
        case Some(v) => Some((k, v))
  }

  /** The `constraints` loop: a repeated input keeps its first position and its last value. */
  function AddConstraints(cs: seq<(int, int)>, lines: seq<string>): Option<seq<(int, int)>>
    decreases |lines|
  {
    if |lines| == 0 then Some(cs)
    else if Strip(lines[0]) == "" then AddConstraints(cs, lines[1..])
    else match ParseConstraint(Strip(lines[0]))
      case None => None
      case Some((k, v)) => AddConstraints(PutConstraint(cs, k, v), lines[1..])
  }

  function StripAll(lines: seq<string>): (r: seq<string>)
    ensures |r| == |lines| && forall k :: 0 <= k < |lines| ==> r[k] == Strip(lines[k])
  {
    if |lines| == 0 then [] else [Strip(lines[0])] + StripAll(lines[1..])
  }

  /** One `def` block: `name count` on its first line, the stripped body lines after it. */
  function ParseFunction(text: string): Option<Function> {
    var lines := Split(text, "\n");
    var header := Split(lines[0], " ");
    if |header| < 2 then None
    else Some(Function(Strip(header[0]), Strip(header[1]), Join(StripAll(lines[1..]), "\n")))
  }

  function AddFunctions(fs: seq<Function>, pieces: seq<string>): Option<seq<Function>>
    decreases |pieces|
  {
    if |pieces| == 0 then Some(fs)
    else if Strip(pieces[0]) == "" then AddFunctions(fs, pieces[1..])
    else match ParseFunction(Strip(pieces[0]))
      case None => None
      case Some(f) => AddFunctions(PutFunction(fs, f), pieces[1..])
  }

  /** One section of the document, recognised by its first word; the tests run in this order,
      so `program_set_size` is recognised before `program_set`. */
  function ApplySection(job: Job, section: string): Option<Job> {
    if "patterns" <= section then
      Some(job.(patternFiles := AddPatterns(job.patternFiles, Split(Drop(section, 8), "\n"))))
    else if "depth" <= section then
      match ParseInt(Drop(section, 5)) case None => None case Some(n) => Some(job.(depth := n))
    else if "var_shadow" <= section then
      match ParseInt(Drop(section, 10)) case None => None case Some(n) => Some(job.(varShadow := n))
    else if "program_set_size" <= section then
      match ParseInt(Drop(section, 16)) case None => None case Some(n) => Some(job.(programSetSize := n))
    else if "program_set" <= section then
      match ParseInt(Drop(section, 11)) case None => None case Some(n) => Some(job.(programSet := n))
    else if "functions" <= section then
      match AddFunctions(job.functions, Split(Drop(section, 9), "def "))
      case None => None
      case Some(fs) => Some(job.(functions := fs))
    else if "constants" <= section then
      match AddConstants(job.constants, Split(Drop(section, 9), "\n"))
      case None => None
      case Some(cs) => Some(job.(constants := cs))
    else if "constraints" <= section then
      match AddConstraints(job.constraints, Split(Drop(section, 11), "\n"))
      case None => None
      case Some(cs) => Some(job.(constraints := cs))
    else Some(job)
  }

  function ApplySections(job: Job, sections: seq<string>): Option<Job>
    decreases |sections|
  {
    if |sections| == 0 then Some(job)
    else match ApplySection(job, sections[0])
      case None => None
      case Some(j) => ApplySections(j, sections[1..])
  }

  /** What `Job.create(contents)` returns, or None where it raises. */
  function Parse(contents: string): Option<Job> {
    ApplySections(Default, Split(contents, "!!"))
  }

  // ------------------------------------------------------------- writing

  function PatternLines(files: seq<string>): string {
    if |files| == 0 then "" else "\t" + files[0] + "\n" + PatternLines(files[1..])
  }

  function BodyLines(lines: seq<string>): string {
    if |lines| == 0 then "" else "\t" + lines[0] + "\n" + BodyLines(lines[1..])
  }

  /** Every function is written with argument count 1, whatever it was read with. */
  function FunctionLines(fs: seq<Function>): string {
    if |fs| == 0 then ""
    else "def " + fs[0].name + " 1\n" + BodyLines(Split(fs[0].code, "\n")) + FunctionLines(fs[1..])
  }

  function ConstantLines(cs: seq<int>): string {
    if |cs| == 0 then "" else "\t" + IntToString(cs[0]) + "\n" + ConstantLines(cs[1..])
  }

  function ConstraintLines(cs: seq<(int, int)>): string {
    if |cs| == 0 then ""
    else "\t" + IntToString(cs[0].0) + " => " + IntToString(cs[0].1) + "\n" + ConstraintLines(cs[1..])
  }

  /** The four integer settings, each in its own section. */
  function Settings(job: Job): string {
    "!!depth " + IntToString(job.depth) + "\n"
    + "!!var_shadow " + IntToString(job.varShadow) + "\n\n"
    + "!!program_set_size " + IntToString(job.programSetSize) + "\n"
    + "!!program_set " + IntToString(job.programSet) + "\n\n"
  }

  /** The text `Job.save` produces. */
  function Saved(job: Job): string {
    Settings(job)
    + "!!patterns\n" + PatternLines(job.patternFiles)
    + "\n!!functions\n" + FunctionLines(job.functions)
    + "\n!!constants\n" + ConstantLines(job.constants)
    + "\n!!constraints\n" + ConstraintLines(job.constraints)
  }

  // ------------------------------------------------------ loop steps

  /** Appending the next piece keeps the text a prefix of the whole. */
  lemma {:induction false} Appended(s: string, piece: string, rest: string, whole: string)
    requires s + (piece + rest) == whole
    ensures (s + piece) + rest == whole
  {
    assert s + (piece + rest) == (s + piece) + rest;
  }

  lemma {:induction false} PatternLinesAt(files: seq<string>, i: nat)
    requires i < |files|
    ensures PatternLines(files[i..]) == "\t" + files[i] + "\n" + PatternLines(files[i + 1..])
  {
    assert files[i..][1..] == files[i + 1..];
  }

  lemma {:induction false} BodyLinesAt(lines: seq<string>, i: nat)
    requires i < |lines|
    ensures BodyLines(lines[i..]) == "\t" + lines[i] + "\n" + BodyLines(lines[i + 1..])
  {
    assert lines[i..][1..] == lines[i + 1..];
  }

  lemma {:induction false} ConstantLinesAt(cs: seq<int>, i: nat)
    requires i < |cs|
    ensures ConstantLines(cs[i..]) == "\t" + IntToString(cs[i]) + "\n" + ConstantLines(cs[i + 1..])
  {
    assert cs[i..][1..] == cs[i + 1..];
  }

  lemma {:induction false} ConstraintLinesAt(cs: seq<(int, int)>, i: nat)
    requires i < |cs|
    ensures ConstraintLines(cs[i..])
         == "\t" + IntToString(cs[i].0) + " => " + IntToString(cs[i].1) + "\n" + ConstraintLines(cs[i + 1..])
  {
    assert cs[i..][1..] == cs[i + 1..];
  }

  lemma {:induction false} FunctionLinesAt(fs: seq<Function>, i: nat)
    requires i < |fs|
    ensures FunctionLines(fs[i..])
         == ("def " + fs[i].name + " 1\n" + BodyLines(Split(fs[i].code, "\n"))) + FunctionLines(fs[i + 1..])
  {
    assert fs[i..][1..] == fs[i + 1..];
  }

  // ---------------------------------------------------------- the loops

  /** `Job.create`. */
  method Create(contents: string) returns (r: Option<Job>)
    ensures r == Parse(contents)
  {
    var sections := Split(contents, "!!");
    var job := Default;
    var i := 0;
    while i < |sections|
      invariant 0 <= i <= |sections|
      invariant ApplySections(job, sections[i..]) == Parse(contents)
    {
      var section := sections[i];
      assert sections[i..][1..] == sections[i + 1..];
      var next := Section(job, section);
      if next.None? {
        return None;
      }
      job := next.value;
      i := i + 1;
    }
    return Some(job);
  }

  /** One `!!` section of `Job.create`, read into the job. */
  method Section(job: Job, section: string) returns (next: Option<Job>)
    ensures next == ApplySection(job, section)
  {
    if "patterns" <= section {
      var files := AddPatternLines(job.patternFiles, Split(Drop(section, 8), "\n"));
      next := Some(job.(patternFiles := files));
    } else if "depth" <= section {
      next := IntSection(job, ParseInt(Drop(section, 5)), 0);
    } else if "var_shadow" <= section {
      next := IntSection(job, ParseInt(Drop(section, 10)), 1);
    } else if "program_set_size" <= section {
      next := IntSection(job, ParseInt(Drop(section, 16)), 2);
    } else if "program_set" <= section {
      next := IntSection(job, ParseInt(Drop(section, 11)), 3);
    } else if "functions" <= section {
      var fs := AddFunctionBlocks(job.functions, Split(Drop(section, 9), "def "));
      next := if fs.None? then None else Some(job.(functions := fs.value));
    } else if "constants" <= section {
      var cs := AddConstantLines(job.constants, Split(Drop(section, 9), "\n"));
      next := if cs.None? then None else Some(job.(constants := cs.value));
    } else if "constraints" <= section {
      var cs := AddConstraintLines(job.constraints, Split(Drop(section, 11), "\n"));
      next := if cs.None? then None else Some(job.(constraints := cs.value));
    } else {
      next := Some(job);
    }
  }

  /** `ret.<field> = int(...)` for depth (0), var_shadow (1), program_set_size (2) and
      program_set (3). */
  method IntSection(job: Job, n: Option<int>, field: nat) returns (r: Option<Job>)
    requires field < 4
    ensures n.None? ==> r.None?
    ensures n.Some? && field == 0 ==> r == Some(job.(depth := n.value))
    ensures n.Some? && field == 1 ==> r == Some(job.(varShadow := n.value))
    ensures n.Some? && field == 2 ==> r == Some(job.(programSetSize := n.value))
    ensures n.Some? && field == 3 ==> r == Some(job.(programSet := n.value))
  {
    if n.None? {
      return None;
    }
    var v := n.value;
    if field == 0 {
      r := Some(job.(depth := v));
    } else if field == 1 {
      r := Some(job.(varShadow := v));
    } else if field == 2 {
      r := Some(job.(programSetSize := v));
    } else {
      r := Some(job.(programSet := v));
    }
  }

  method AddPatternLines(files0: seq<string>, lines: seq<string>) returns (files: seq<string>)
    ensures files == AddPatterns(files0, lines)
  {
    files := files0;
    var i := 0;
    while i < |lines|
      invariant 0 <= i <= |lines|
      invariant AddPatterns(files, lines[i..]) == AddPatterns(files0, lines)
    {
      assert lines[i..][1..] == lines[i + 1..];
      var name := Strip(lines[i]);
      if name != "" {
        files := files + [name];
      }
      i := i + 1;
    }
  }

  method AddConstantLines(cs0: seq<int>, lines: seq<string>) returns (r: Option<seq<int>>)
    ensures r == AddConstants(cs0, lines)
  {
    var cs := cs0;
    var i := 0;
    while i < |lines|
      invariant 0 <= i <= |lines|
      invariant AddConstants(cs, lines[i..]) == AddConstants(cs0, lines)
    {
      assert lines[i..][1..] == lines[i + 1..];
      var text := Strip(lines[i]);
      if text != "" {
        var n := ParseInt(text);
        if n.None? {
          return None;
        }
        cs := cs + [n.value];
      }
      i := i + 1;
    }
    return Some(cs);
  }

  method AddConstraintLines(cs0: seq<(int, int)>, lines: seq<string>) returns (r: Option<seq<(int, int)>>)
    ensures r == AddConstraints(cs0, lines)
  {
    var cs := cs0;
    var i := 0;
    while i < |lines|
      invariant 0 <= i <= |lines|
      invariant AddConstraints(cs, lines[i..]) == AddConstraints(cs0, lines)
    {
      assert lines[i..][1..] == lines[i + 1..];
      var text := Strip(lines[i]);
      if text != "" {
        var kv := ParseConstraint(text);
        if kv.None? {
          return None;
        }
        cs := PutConstraint(cs, kv.value.0, kv.value.1);
      }
      i := i + 1;
    }
    return Some(cs);
  }

  method AddFunctionBlocks(fs0: seq<Function>, pieces: seq<string>) returns (r: Option<seq<Function>>)
    ensures r == AddFunctions(fs0, pieces)
  {
    var fs := fs0;
    var i := 0;
    while i < |pieces|
      invariant 0 <= i <= |pieces|
      invariant AddFunctions(fs, pieces[i..]) == AddFunctions(fs0, pieces)
    {
      assert pieces[i..][1..] == pieces[i + 1..];
      var text := Strip(pieces[i]);
      if text != "" {
        var f := ParseFunction(text);
        if f.None? {
          return None;
        }
        fs := PutFunction(fs, f.value);
      }
      i := i + 1;
    }
    return Some(fs);
  }

  /** `Job.save`. */
  method Save(job: Job) returns (s: string)
    ensures s == Saved(job)
  {
    s := "!!depth " + IntToString(job.depth) + "\n";
    s := s + "!!var_shadow " + IntToString(job.varShadow) + "\n\n";
    s := s + "!!program_set_size " + IntToString(job.programSetSize) + "\n";
    s := s + "!!program_set " + IntToString(job.programSet) + "\n\n";
    s := s + "!!patterns\n";
    var lines := SavePatterns(job.patternFiles);
    s := s + lines;
    s := s + "\n!!functions\n";
    lines := SaveFunctions(job.functions);
    s := s + lines;
    s := s + "\n!!constants\n";
    lines := SaveConstants(job.constants);
    s := s + lines;
    s := s + "\n!!constraints\n";
    lines := SaveConstraints(job.constraints);
    s := s + lines;
  }

  method SavePatterns(files: seq<string>) returns (s: string)
    ensures s == PatternLines(files)
  {
    s := "";
    var i := 0;
    while i < |files|
      invariant 0 <= i <= |files|
      invariant s + PatternLines(files[i..]) == PatternLines(files)
    {
      var line := "\t" + files[i] + "\n";
      PatternLinesAt(files, i);
      Appended(s, line, PatternLines(files[i + 1..]), PatternLines(files));
      s := s + line;
      i := i + 1;
    }
    assert s + PatternLines(files[i..]) == s;
  }

  method SaveConstants(cs: seq<int>) returns (s: string)
    ensures s == ConstantLines(cs)
  {
    s := "";
    var i := 0;
    while i < |cs|
      invariant 0 <= i <= |cs|
      invariant s + ConstantLines(cs[i..]) == ConstantLines(cs)
    {
      var line := "\t" + IntToString(cs[i]) + "\n";
      ConstantLinesAt(cs, i);
      Appended(s, line, ConstantLines(cs[i + 1..]), ConstantLines(cs));
      s := s + line;
      i := i + 1;
    }
    assert s + ConstantLines(cs[i..]) == s;
  }

  method SaveConstraints(cs: seq<(int, int)>) returns (s: string)
    ensures s == ConstraintLines(cs)
  {
    s := "";
    var i := 0;
    while i < |cs|
      invariant 0 <= i <= |cs|
      invariant s + ConstraintLines(cs[i..]) == ConstraintLines(cs)
    {
      var line := "\t" + IntToString(cs[i].0) + " => " + IntToString(cs[i].1) + "\n";
      ConstraintLinesAt(cs, i);
      Appended(s, line, ConstraintLines(cs[i + 1..]), ConstraintLines(cs));
      s := s + line;
      i := i + 1;
    }
    assert s + ConstraintLines(cs[i..]) == s;
  }

  /** The `for function in self.functions` loop of `save`. */
  method SaveFunctions(fs: seq<Function>) returns (s: string)
    ensures s == FunctionLines(fs)
  {
    s := "";
    var i := 0;
    while i < |fs|
      invariant 0 <= i <= |fs|
      invariant s + FunctionLines(fs[i..]) == FunctionLines(fs)
    {
      var head := "def " + fs[i].name + " 1\n";
      var body := Split(fs[i].code, "\n");
      var text := SaveBody(body);
      FunctionLinesAt(fs, i);
      Appended(s, head + text, FunctionLines(fs[i + 1..]), FunctionLines(fs));
      s := s + (head + text);
      i := i + 1;
    }
    assert s + FunctionLines(fs[i..]) == s;
  }

  method SaveBody(lines: seq<string>) returns (s: string)
    ensures s == BodyLines(lines)
  {
    s := "";
    var i := 0;
    while i < |lines|
      invariant 0 <= i <= |lines|
      invariant s + BodyLines(lines[i..]) == BodyLines(lines)
    {
      var line := "\t" + lines[i] + "\n";
      BodyLinesAt(lines, i);
      Appended(s, line, BodyLines(lines[i + 1..]), BodyLines(lines));
      s := s + line;
      i := i + 1;
    }
    assert s + BodyLines(lines[i..]) == s;
  }
}
