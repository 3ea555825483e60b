/**
 * One instruction line of the synthesised toy language (cold/cold.py, class Instruction),
 * its canonical form used to deduplicate sibling slot fills (`fhash`), the self-comparison
 * test (`is_dumb`) and the pruning pass built from both (`strip_dumb_instructions`).
 */
module Instructions {
  import opened Text

  /** `Instruction(line)`: the text, its first space-separated word and the other words. */
  datatype Instruction = Instruction(code: string, cmd: string, params: seq<string>)

  predicate Words(ws: seq<string>) {
    forall k :: 0 <= k < |ws| ==> Avoids(ws[k], ' ')
  }

  /** `Instruction(line)`: the words of a line give it back when joined with single spaces. */
  function Parse(line: string): (i: Instruction)
    ensures i.code == line
    ensures Join([i.cmd] + i.params, " ") == line
    ensures Avoids(i.cmd, ' ') && Words(i.params)
  {
    var ws := Split(line, " ");
    JoinSplit(line, " ");
    SplitPartsAvoid(line, ' ', "");
    assert ws == [ws[0]] + ws[1..];
    Instruction(line, ws[0], ws[1..])
  }

  // ------------------------------------------------------------ string order

  /** Python's `a <= b` on strings: lexicographic by code point, a prefix sorts first. */
  predicate LexLe(a: string, b: string) {
    |a| == 0 || (|b| > 0 && (a[0] < b[0] || (a[0] == b[0] && LexLe(a[1..], b[1..]))))
  }

  lemma {:induction false} LexTotal(a: string, b: string)
    ensures LexLe(a, b) || LexLe(b, a)
  {
    if |a| > 0 && |b| > 0 && a[0] == b[0] {
      LexTotal(a[1..], b[1..]);
    }
  }

  lemma {:induction false} LexAntisymmetric(a: string, b: string)
    requires LexLe(a, b) && LexLe(b, a)
    ensures a == b
  {
    if |a| > 0 && |b| > 0 {
      LexAntisymmetric(a[1..], b[1..]);
      assert a == [a[0]] + a[1..] && b == [b[0]] + b[1..];
    }
  }

  /** `temp.sort()` on the two-element list `[a, b]`: swapped exactly when `b < a`. */
  function Sort2(a: string, b: string): (string, string) {
    if !LexLe(a, b) then (b, a) else (a, b)
  }

  lemma {:induction false} Sort2Symmetric(a: string, b: string)
    ensures Sort2(a, b) == Sort2(b, a)
  {
    LexTotal(a, b);
    if LexLe(a, b) && LexLe(b, a) {
      LexAntisymmetric(a, b);
    }
  }

  lemma {:induction false} Sort2Sorted(a: string, b: string)
    ensures LexLe(Sort2(a, b).0, Sort2(a, b).1)
    ensures Sort2(Sort2(a, b).0, Sort2(a, b).1) == Sort2(a, b)
  {
    LexTotal(a, b);
  }

  // ------------------------------------------------------- canonical form

  predicate IsCommutative(cmd: string) {
    cmd == "add" || cmd == "mul"
  }

  /** The operands `fhash` and `is_dumb` index exist (otherwise Python raises IndexError). */
  predicate HasOperands(i: Instruction) {
    && (IsCommutative(i.cmd) ==> |i.params| >= 2)
    && (i.cmd == "cmp" ==> |i.params| >= 3)
  }

  /** The operand list `fhash` prints: the two sides sorted for add, mul and cmp. */
  function CanonicalParams(i: Instruction): seq<string>
    requires HasOperands(i)
  {
    if IsCommutative(i.cmd) then
      var (lo, hi) := Sort2(i.params[0], i.params[1]);
      i.params[0 := lo][1 := hi]
    else if i.cmd == "cmp" then
      var (lo, hi) := Sort2(i.params[0], i.params[2]);
      i.params[0 := lo][2 := hi]
    else i.params
  }

  /** `Instruction.fhash`. */
  function FHash(i: Instruction): string
    requires HasOperands(i)
  {
    i.cmd + " " + Join(CanonicalParams(i), " ")
  }

  /** `Instruction.is_dumb`: a comparison of a token with itself. */
  predicate IsDumb(i: Instruction)
    requires i.cmd == "cmp" ==> |i.params| >= 3
  {
    i.cmd == "cmp" && i.params[0] == i.params[2]
  }

  function SwapParams(i: Instruction, a: nat, b: nat): Instruction
    requires a < |i.params| && b < |i.params|
  {
    i.(params := i.params[a := i.params[b]][b := i.params[a]])
  }

  /** Exchanging the two summands or factors of add/mul leaves the canonical form unchanged. */
  lemma {:induction false} FHashCommutes(i: Instruction)
    requires IsCommutative(i.cmd) && |i.params| >= 2
    ensures HasOperands(SwapParams(i, 0, 1))
    ensures FHash(SwapParams(i, 0, 1)) == FHash(i)
  {
    Sort2Symmetric(i.params[0], i.params[1]);
    var j := SwapParams(i, 0, 1);
    assert CanonicalParams(j) == CanonicalParams(i);
  }

  /** Exchanging the sides of a comparison leaves the canonical form unchanged, also for `<` and `>`. */
  lemma {:induction false} FHashCmpCommutes(i: Instruction)
    requires i.cmd == "cmp" && |i.params| >= 3
    ensures HasOperands(SwapParams(i, 0, 2))
    ensures FHash(SwapParams(i, 0, 2)) == FHash(i)
  {
    Sort2Symmetric(i.params[0], i.params[2]);
    var j := SwapParams(i, 0, 2);
    assert CanonicalParams(j) == CanonicalParams(i);
  }

  /** The canonical form of a parsed line is a fixed point: canonicalising its text again changes nothing. */
  lemma {:induction false} FHashIdempotent(line: string)
    requires HasOperands(Parse(line))
    ensures HasOperands(Parse(FHash(Parse(line))))
    ensures FHash(Parse(FHash(Parse(line)))) == FHash(Parse(line))
  {
    var i := Parse(line);
    var ps := CanonicalParams(i);
    assert |ps| == |i.params|;
    assert Words(ps) by {
      forall k | 0 <= k < |ps| ensures Avoids(ps[k], ' ') {
        if IsCommutative(i.cmd) {
          assert ps[k] == i.params[k] || ps[k] == i.params[0] || ps[k] == i.params[1];
        } else if i.cmd == "cmp" {
          assert ps[k] == i.params[k] || ps[k] == i.params[0] || ps[k] == i.params[2];
        }
      }
    }
    if |ps| == 0 {
      assert FHash(i) == Join([i.cmd, ""], " ");
      SplitJoinChar([i.cmd, ""], ' ');
      assert Parse(FHash(i)).params == [""];
    } else {
      assert FHash(i) == Join([i.cmd] + ps, " ") by {
        assert ([i.cmd] + ps)[1..] == ps;
      }
      forall k | 0 <= k < |[i.cmd] + ps| ensures Avoids(([i.cmd] + ps)[k], ' ') {
        if k > 0 { assert ([i.cmd] + ps)[k] == ps[k - 1]; }
      }
      SplitJoinChar([i.cmd] + ps, ' ');
      var j := Parse(FHash(i));
      assert j.cmd == i.cmd && j.params == ps;
      if IsCommutative(i.cmd) {
        Sort2Sorted(i.params[0], i.params[1]);
      } else if i.cmd == "cmp" {
        Sort2Sorted(i.params[0], i.params[2]);
      }
      assert CanonicalParams(j) == ps;
    }
  }

  // ------------------------------------------------------------- pruning

  predicate AllHaveOperands(xs: seq<Instruction>) {
    forall k :: 0 <= k < |xs| ==> HasOperands(xs[k])
  }

  /**
   * The element at `i` survives pruning: it is not a self-comparison and no later element
   * that is not one either has the same canonical form (so the last of each group wins).
   */
  predicate Kept(xs: seq<Instruction>, i: nat)
    requires AllHaveOperands(xs) && i < |xs|
  {
    && !IsDumb(xs[i])
    && forall j :: i < j < |xs| && !IsDumb(xs[j]) ==> FHash(xs[j]) != FHash(xs[i])
  }

  /** The surviving elements from index `i` on, in their original order. */
  function KeptFrom(xs: seq<Instruction>, i: nat): (r: seq<Instruction>)
    requires AllHaveOperands(xs) && i <= |xs|
    ensures AllHaveOperands(r) && forall k :: 0 <= k < |r| ==> !IsDumb(r[k])
    decreases |xs| - i
  {
    if i == |xs| then []
    else (if Kept(xs, i) then [xs[i]] else []) + KeptFrom(xs, i + 1)
  }

  /** The canonical forms of the non-degenerate elements from index `i` on. */
  function HashesFrom(xs: seq<Instruction>, i: nat): set<string>
    requires AllHaveOperands(xs) && i <= |xs|
  {
    set j | i <= j < |xs| && !IsDumb(xs[j]) :: FHash(xs[j])
  }

  /**
   * `Interpreter.strip_dumb_instructions`: walks the list from the back, popping any element
   * that is degenerate or whose canonical form was already seen.
   */
  method StripDumbInstructions(instructions: seq<Instruction>) returns (r: seq<Instruction>)
    requires AllHaveOperands(instructions)
    ensures r == KeptFrom(instructions, 0)
  {
    var xs := instructions;
    r := instructions;
    var already: seq<string> := [];
    var i := |r|;
    while i > 0
      invariant 0 <= i <= |xs|
      invariant r == xs[..i] + KeptFrom(xs, i)
      invariant forall h :: h in already <==> h in HashesFrom(xs, i)
    {
      i := i - 1;
      SplitAt(xs, i, KeptFrom(xs, i + 1));
      KeptAt(xs, i);
      HashesFromAt(xs, i);
      var inst := r[i];
      var h := FHash(inst);
      if h in already || IsDumb(inst) {
        r := r[..i] + r[i + 1..];
      } else {
        already := already + [h];
      }
    }
    assert xs[..0] == [];
  }

  /** The pieces of `xs[..i + 1] + tail` around index `i`. */
  lemma {:induction false} SplitAt<T>(xs: seq<T>, i: nat, tail: seq<T>)
    requires i < |xs|
    ensures var r := xs[..i + 1] + tail;
      && r[i] == xs[i] && r[..i] == xs[..i] && r[i + 1..] == tail
      && r == xs[..i] + ([xs[i]] + tail)
  {
    var r := xs[..i + 1] + tail;
    assert r[..i] == xs[..i];
    assert r[i + 1..] == tail;
    assert r == xs[..i] + ([xs[i]] + tail);
  }

  /** The canonical forms seen grow by element `i`'s own unless it is degenerate. */
  lemma {:induction false} HashesFromAt(xs: seq<Instruction>, i: nat)
    requires AllHaveOperands(xs) && i < |xs|
    ensures HashesFrom(xs, i) == HashesFrom(xs, i + 1) + (if IsDumb(xs[i]) then {} else {FHash(xs[i])})
  {
  }

  /** Element `i` survives exactly when it is not degenerate and its canonical form does not
      occur among the later non-degenerate elements. */
  lemma {:induction false} KeptAt(xs: seq<Instruction>, i: nat)
    requires AllHaveOperands(xs) && i < |xs|
    ensures Kept(xs, i) <==> !IsDumb(xs[i]) && FHash(xs[i]) !in HashesFrom(xs, i + 1)
    ensures KeptFrom(xs, i) == (if Kept(xs, i) then [xs[i]] else []) + KeptFrom(xs, i + 1)
  {
    if !IsDumb(xs[i]) && FHash(xs[i]) in HashesFrom(xs, i + 1) {
      var j :| i + 1 <= j < |xs| && !IsDumb(xs[j]) && FHash(xs[j]) == FHash(xs[i]);
      assert !Kept(xs, i);
    }
    if !IsDumb(xs[i]) && FHash(xs[i]) !in HashesFrom(xs, i + 1) {
      forall j | i < j < |xs| && !IsDumb(xs[j]) ensures FHash(xs[j]) != FHash(xs[i]) {
        assert FHash(xs[j]) in HashesFrom(xs, i + 1);
      }
    }
  }

  lemma {:induction false} KeptFromOrigin(xs: seq<Instruction>, i: nat, k: nat)
    requires AllHaveOperands(xs) && i <= |xs| && k < |KeptFrom(xs, i)|
    ensures exists j :: i <= j < |xs| && Kept(xs, j) && KeptFrom(xs, i)[k] == xs[j]
    decreases |xs| - i
  {
    if Kept(xs, i) {
      if k > 0 {
        KeptFromOrigin(xs, i + 1, k - 1);
      }
    } else {
      KeptFromOrigin(xs, i + 1, k);
    }
  }

  /** Some element of `r` has canonical form `h`. */
  predicate HashIn(r: seq<Instruction>, h: string)
    requires AllHaveOperands(r)
  {
    exists k :: 0 <= k < |r| && FHash(r[k]) == h
  }

  lemma {:induction false} HashInAppend(p: seq<Instruction>, r: seq<Instruction>, h: string)
    requires AllHaveOperands(p) && AllHaveOperands(r) && HashIn(r, h)
    ensures AllHaveOperands(p + r) && HashIn(p + r, h)
  {
    var k :| 0 <= k < |r| && FHash(r[k]) == h;
    assert (p + r)[|p| + k] == r[k];
  }

  /** Every canonical form of a non-degenerate element from `i` on occurs among the survivors. */
  lemma {:induction false} KeptFromComplete(xs: seq<Instruction>, i: nat, j: nat)
    requires AllHaveOperands(xs) && i <= j < |xs| && !IsDumb(xs[j])
    ensures HashIn(KeptFrom(xs, i), FHash(xs[j]))
    decreases |xs| - i
  {
    var head := if Kept(xs, i) then [xs[i]] else [];
    assert KeptFrom(xs, i) == head + KeptFrom(xs, i + 1);
    if i == j && Kept(xs, i) {
      assert KeptFrom(xs, i)[0] == xs[j];
    } else if i == j {
      var l :| i < l < |xs| && !IsDumb(xs[l]) && FHash(xs[l]) == FHash(xs[i]);
      KeptFromComplete(xs, i + 1, l);
      assert KeptFrom(xs, i) == KeptFrom(xs, i + 1);
    } else {
      KeptFromComplete(xs, i + 1, j);
      HashInAppend(head, KeptFrom(xs, i + 1), FHash(xs[j]));
    }
  }

  /** The survivors' canonical forms are pairwise distinct. */
  lemma {:induction false} KeptFromDistinct(xs: seq<Instruction>, i: nat)
    requires AllHaveOperands(xs) && i <= |xs|
    ensures HashesDistinct(KeptFrom(xs, i))
    decreases |xs| - i
  {
    if i < |xs| {
      KeptFromDistinct(xs, i + 1);
      DistinctStep(xs, i);
    }
  }

  lemma {:induction false} DistinctStep(xs: seq<Instruction>, i: nat)
    requires AllHaveOperands(xs) && i < |xs| && HashesDistinct(KeptFrom(xs, i + 1))
    ensures HashesDistinct(KeptFrom(xs, i))
  {
    var tail := KeptFrom(xs, i + 1);
    if Kept(xs, i) {
      assert KeptFrom(xs, i) == [xs[i]] + tail;
      KeptHeadFresh(xs, i, tail);
      DistinctCons(xs[i], tail, KeptFrom(xs, i));
    } else {
      assert KeptFrom(xs, i) == [] + tail;
      assert [] + tail == tail;
    }
  }

  /** A survivor's canonical form occurs among no later survivor. */
  lemma {:induction false} KeptHeadFresh(xs: seq<Instruction>, i: nat, tail: seq<Instruction>)
    requires AllHaveOperands(xs) && i < |xs| && Kept(xs, i) && tail == KeptFrom(xs, i + 1)
    ensures forall k :: 0 <= k < |tail| ==> FHash(tail[k]) != FHash(xs[i])
  {
    forall k | 0 <= k < |tail| ensures FHash(tail[k]) != FHash(xs[i]) {
      KeptFromOrigin(xs, i + 1, k);
    }
  }

  /** No two elements share a canonical form. */
  predicate HashesDistinct(r: seq<Instruction>)
    requires AllHaveOperands(r)
  {
    forall a, b :: 0 <= a < b < |r| ==> FHash(r[a]) != FHash(r[b])
  }

  lemma {:induction false} DistinctCons(x: Instruction, tail: seq<Instruction>, r: seq<Instruction>)
    requires HasOperands(x) && AllHaveOperands(tail) && r == [x] + tail
    requires HashesDistinct(tail)
    requires forall k :: 0 <= k < |tail| ==> FHash(tail[k]) != FHash(x)
    ensures AllHaveOperands(r) && HashesDistinct(r)
  {
    forall a, b | 0 <= a < b < |r| ensures FHash(r[a]) != FHash(r[b]) {
      assert r[b] == tail[b - 1];
      if a > 0 {
        assert r[a] == tail[a - 1];
      }
    }
  }

  /**
   * What pruning promises: no survivor is a self-comparison (see KeptFrom), the survivors'
   * canonical forms are pairwise distinct, and every canonical form of a non-degenerate
   * input is still represented.
   */
  lemma {:induction false} StripDumbInstructionsSound(xs: seq<Instruction>)
    requires AllHaveOperands(xs)
    ensures forall k :: 0 <= k < |KeptFrom(xs, 0)| ==> !IsDumb(KeptFrom(xs, 0)[k])
    ensures forall a, b :: 0 <= a < b < |KeptFrom(xs, 0)| ==>
              FHash(KeptFrom(xs, 0)[a]) != FHash(KeptFrom(xs, 0)[b])
    ensures forall j :: 0 <= j < |xs| && !IsDumb(xs[j]) ==> HashIn(KeptFrom(xs, 0), FHash(xs[j]))
  {
    KeptFromDistinct(xs, 0);
    forall j | 0 <= j < |xs| && !IsDumb(xs[j])
      ensures HashIn(KeptFrom(xs, 0), FHash(xs[j]))
    {
      KeptFromComplete(xs, 0, j);
    }
  }
}
