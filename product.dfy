/**
 * `Assembler.product`: the base-P odometer that enumerates pattern-index tuples.
 *
 * A tuple of `depth` pattern indices is a number written in base P (P = the number of
 * patterns), most significant digit first. The odometer is seeded with the left-padded
 * base-P form of `start` and then counts up by one until the all-(P-1) tuple.
 */
module ColdProduct {
  import opened Wrappers

  /** `p` to the power `d`. */
  function Power(p: nat, d: nat): nat {
    if d == 0 then 1 else p * Power(p, d - 1)
  }

  lemma {:induction false} PowerPositive(p: nat, d: nat)
    requires p >= 1
    ensures Power(p, d) >= 1
  {
    if d > 0 {
      PowerPositive(p, d - 1);
      MulAtLeast(p, Power(p, d - 1));
    }
  }

  lemma {:induction false} PowerOfOne(d: nat)
    ensures Power(1, d) == 1
  {
    if d > 0 {
      PowerOfOne(d - 1);
    }
  }

  lemma {:induction false} MulAtLeast(p: nat, x: nat)
    requires p >= 1
    ensures p * x >= x
  {
  }

  /** Every entry is a digit of base `p`. */
  predicate Digits(p: nat, v: seq<nat>) {
    forall k :: 0 <= k < |v| ==> v[k] < p
  }

  /** The number a digit tuple stands for, most significant digit first. */
  function Value(p: nat, v: seq<nat>): nat {
    if |v| == 0 then 0 else Value(p, v[..|v| - 1]) * p + v[|v| - 1]
  }

  /** The last `d` base-`p` digits of `n`, most significant first. */
  function Vector(p: nat, d: nat, n: nat): (v: seq<nat>)
    requires p >= 1
    ensures |v| == d
    ensures Digits(p, v)
  {
    if d == 0 then [] else Vector(p, d - 1, n / p) + [n % p]
  }

  // ---------------------------------------------------------------- arithmetic

  /** Division by `p` undoes `a * p + b` for a digit `b`. */
  lemma {:induction false} DivModUnique(a: nat, b: nat, p: nat)
    requires b < p
    ensures (a * p + b) / p == a
    ensures (a * p + b) % p == b
  {
    var n := a * p + b;
    var q, r := n / p, n % p;
    assert q * p + r == a * p + b;
    if q > a {
      assert (q - a) * p == b - r;
      MulAtLeast(q - a, p);
    } else if q < a {
      assert (a - q) * p == r - b;
      MulAtLeast(a - q, p);
    }
  }

  /** `n < p * m` bounds the quotient: `n / p < m`. */
  lemma {:induction false} DivBelow(n: nat, p: nat, m: nat)
    requires p >= 1 && n < p * m
    ensures n / p < m
  {
    var q := n / p;
    assert q * p <= n;
  }

  /** One more digit below `p * m`: `a < m` and a digit `b` give `a * p + b < p * m`. */
  lemma {:induction false} BelowNext(a: nat, b: nat, m: nat, p: nat)
    requires a < m && b < p
    ensures a * p + b < p * m
  {
    assert (a + 1) * p <= m * p by {
      MulAtLeast(p, m - (a + 1));
      assert (m - (a + 1)) * p >= 0;
    }
  }

  /** Multiplying by a positive `p` is injective. */
  lemma {:induction false} MulCancel(x: nat, y: nat, p: nat)
    requires p >= 1
    ensures x * p == y * p <==> x == y
  {
    if x < y {
      MulAtLeast(y - x, p);
      assert (y - x) * p == y * p - x * p;
    } else if y < x {
      MulAtLeast(x - y, p);
      assert (x - y) * p == x * p - y * p;
    }
  }

  /** `n >= p * m` bounds the quotient from below: `n / p >= m`. */
  lemma {:induction false} DivAbove(n: nat, p: nat, m: nat)
    requires p >= 1 && n >= p * m
    ensures n / p >= m
  {
    var q, r := n / p, n % p;
    assert q * p + r == n;
    if q < m {
      assert (m - q) * p >= p by {
        MulAtLeast(m - q, p);
      }
    }
  }

  // ---------------------------------------------------------------- digit tuples

  /** A tuple of `d` digits stands for a number below `p^d`. */
  lemma {:induction false} ValueBound(p: nat, v: seq<nat>)
    requires p >= 1 && Digits(p, v)
    ensures Value(p, v) < Power(p, |v|)
    decreases |v|
  {
    if |v| > 0 {
      var pre := v[..|v| - 1];
      assert Digits(p, pre) by {
        assert forall k :: 0 <= k < |pre| ==> pre[k] == v[k];
      }
      ValueBound(p, pre);
      BelowNext(Value(p, pre), v[|v| - 1], Power(p, |pre|), p);
    }
  }

  /** Reading back the digits of a number below `p^d` gives the number. */
  lemma {:induction false} VectorValue(p: nat, d: nat, n: nat)
    requires p >= 1 && n < Power(p, d)
    ensures Value(p, Vector(p, d, n)) == n
  {
    if d > 0 {
      var q, r := n / p, n % p;
      DivBelow(n, p, Power(p, d - 1));
      VectorValue(p, d - 1, q);
      var w := Vector(p, d - 1, q);
      assert Vector(p, d, n) == w + [r];
      ValueSnoc(p, w, r);
      QuotientRemainder(n, p);
    }
  }

  lemma {:induction false} QuotientRemainder(n: nat, p: nat)
    requires p >= 1
    ensures (n / p) * p + n % p == n
  {
  }

  lemma {:induction false} ValueSnoc(p: nat, w: seq<nat>, r: nat)
    ensures Value(p, w + [r]) == Value(p, w) * p + r
  {
    assert (w + [r])[..|w|] == w;
  }

  /** Writing out the value of a digit tuple gives the tuple back. */
  lemma {:induction false} ValueVector(p: nat, v: seq<nat>)
    requires p >= 1 && Digits(p, v)
    ensures Vector(p, |v|, Value(p, v)) == v
    decreases |v|
  {
    if |v| > 0 {
      var pre := v[..|v| - 1];
      assert Digits(p, pre) by {
        assert forall k :: 0 <= k < |pre| ==> pre[k] == v[k];
      }
      DivModUnique(Value(p, pre), v[|v| - 1], p);
      ValueVector(p, pre);
      assert v == pre + [v[|v| - 1]];
    }
  }

  /**
   * The enumeration is complete and has no duplicates: every tuple of `d` base-`p` digits
   * is the vector of exactly one number below `p^d`.
   */
  lemma {:induction false} VectorsCover(p: nat, v: seq<nat>)
    requires p >= 1 && Digits(p, v)
    ensures Value(p, v) < Power(p, |v|) && Vector(p, |v|, Value(p, v)) == v
    ensures forall n :: 0 <= n < Power(p, |v|) && Vector(p, |v|, n) == v ==> n == Value(p, v)
  {
    ValueBound(p, v);
    ValueVector(p, v);
    forall n | 0 <= n < Power(p, |v|) && Vector(p, |v|, n) == v
      ensures n == Value(p, v)
    {
      VectorValue(p, |v|, n);
    }
  }

  // ---------------------------------------------------------------- the seed

  function Abs(s: int): nat {
    if s >= 0 then s else -s
  }

  /** Python's `int(s / p)`: the quotient rounded toward zero. */
  function TruncDiv(s: int, p: nat): int
    requires p >= 1
  {
    if s >= 0 then s / p else -((-s) / p)
  }

  lemma {:induction false} TruncSmaller(p: nat, s: int)
    requires p >= 2 && s != 0
    ensures Abs(TruncDiv(s, p)) < Abs(s)
  {
    if s > 0 {
      PositiveQuotient(p, s);
    } else {
      PositiveQuotient(p, -s);
      assert TruncDiv(s, p) == -((-s) / p);
    }
  }

  lemma {:induction false} PositiveQuotient(p: nat, a: int)
    requires p >= 2 && a > 0
    ensures TruncDiv(a, p) == a / p && 0 <= a / p < a && Abs(a / p) == a / p
  {
    DivSmaller(p, a);
  }

  /**
   * The digits the seed loop collects from `s`, most significant first: each one is
   * `s % p` (Python's remainder, never negative for a positive `p`), after which `s`
   * becomes `int(s / p)`; none at all for 0.
   */
  function SeedDigits(p: nat, s: int): (v: seq<nat>)
    requires p >= 2 || s == 0
    ensures Digits(p, v)
    decreases Abs(s)
  {
    if s == 0 then []
    else
      TruncSmaller(p, s);
      SeedDigits(p, TruncDiv(s, p)) + [s % p]
  }

  /** Zeros inserted at the front until the tuple is `d` long; a longer tuple is kept. */
  function Pad(v: seq<nat>, d: nat): seq<nat>
    decreases d - |v|
  {
    if |v| >= d then v else Pad([0] + v, d)
  }

  function Zeros(k: nat): (z: seq<nat>)
    ensures |z| == k
  {
    if k == 0 then [] else [0] + Zeros(k - 1)
  }

  /**
   * The seed loop of `product`: the digits of `start`, reversed, then padded with zeros
   * at the front to `depth` digits. Appending and then reversing is the same as putting
   * each new digit at the front. With one pattern the loop only ends for `start == 0`
   * (see `SeedLoopHangs`).
   */
  method StartVector(p: nat, depth: nat, start: int) returns (val: seq<nat>)
    requires p >= 2 || start == 0
    ensures val == Pad(SeedDigits(p, start), depth)
  {
    val := [];
    var s := start;
    while s != 0
      invariant p >= 2 || s == 0
      invariant SeedDigits(p, s) + val == SeedDigits(p, start)
      decreases Abs(s)
    {
      var q, r := TruncDiv(s, p), s % p;
      SeedStep(p, s, val);
      val := [r] + val;
      s := q;
    }
    assert [] + val == val;
    while |val| < depth
      invariant Pad(val, depth) == Pad(SeedDigits(p, start), depth)
      decreases depth - |val|
    {
      val := [0] + val;
    }
  }

  lemma {:induction false} SeedStep(p: nat, s: int, val: seq<nat>)
    requires p >= 2 && s != 0
    ensures Abs(TruncDiv(s, p)) < Abs(s)
    ensures SeedDigits(p, s) + val == SeedDigits(p, TruncDiv(s, p)) + ([s % p] + val)
  {
    TruncSmaller(p, s);
    var pre := SeedDigits(p, TruncDiv(s, p));
    assert SeedDigits(p, s) == pre + [s % p];
    assert pre + [s % p] + val == pre + ([s % p] + val);
  }

  /** The seed loop as written, run for at most `fuel` iterations: None when it has not
      ended by then. */
  function SeedLoop(p: nat, s: int, val: seq<nat>, fuel: nat): Option<seq<nat>>
    requires p >= 1
    decreases fuel
  {
    if s == 0 then Some(val)
    else if fuel == 0 then None
    else SeedLoop(p, TruncDiv(s, p), [s % p] + val, fuel - 1)
  }

  /** With one pattern, `start % 1` is 0 and `int(start / 1)` is `start` again: the seed
      loop never ends for a non-zero `start`, however many iterations it is given. */
  lemma {:induction false} SeedLoopHangs(s: int, val: seq<nat>, fuel: nat)
    requires s != 0
    ensures SeedLoop(1, s, val, fuel) == None
    decreases fuel
  {
    if fuel > 0 {
      assert TruncDiv(s, 1) == s;
      SeedLoopHangs(s, [s % 1] + val, fuel - 1);
    }
  }

  /** With two or more patterns the seed loop ends within `|s|` iterations with the seed
      digits. */
  lemma {:induction false} SeedLoopEnds(p: nat, s: int, val: seq<nat>, fuel: nat)
    requires p >= 2 && fuel >= Abs(s)
    ensures SeedLoop(p, s, val, fuel) == Some(SeedDigits(p, s) + val)
    decreases Abs(s)
  {
    if s == 0 {
      assert [] + val == val;
    } else {
      SeedStep(p, s, val);
      SeedLoopEnds(p, TruncDiv(s, p), [s % p] + val, fuel - 1);
    }
  }

  /**
   * The number the odometer starts from. A seed longer than `depth` (a `start` at or
   * beyond `P^depth`, see `StartOverrun`) and a non-zero `start` with one pattern (see
   * `SeedLoopHangs`) start past the last tuple; otherwise it is the number the seed's
   * digits stand for. A negative `start` gives the digits of the loop above too.
   */
  function FirstNumber(p: nat, depth: nat, start: int): (n: nat)
    requires p >= 1
    ensures n <= Power(p, depth)
  {
    if p == 1 && start != 0 then PowerOfOne(depth); Power(p, depth)
    else
      var v := SeedDigits(p, start);
      if |v| > depth then Power(p, depth)
      else
        ValueBound(p, v);
        PowerGrows(p, |v|, depth);
        Value(p, v)
  }

  lemma {:induction false} PowerGrows(p: nat, d: nat, e: nat)
    requires p >= 1 && d <= e
    ensures Power(p, d) <= Power(p, e)
    decreases e
  {
    if d < e {
      PowerGrows(p, d, e - 1);
      MulAtLeast(p, Power(p, e - 1));
    }
  }

  /** For a `start` that is not negative the odometer starts from `start`, or past the last
      tuple when `start >= P^depth`. */
  lemma {:induction false} FirstNumberNatural(p: nat, depth: nat, start: int)
    requires p >= 1 && start >= 0
    ensures FirstNumber(p, depth, start) == if start < Power(p, depth) then start else Power(p, depth)
  {
    if p == 1 {
      PowerOfOne(depth);
    } else if start < Power(p, depth) {
      DigitsFit(p, depth, start);
      ValueOfDigits(p, start);
    } else {
      DigitsOverflow(p, depth, start);
    }
  }

  /** When the seed fits in `depth` digits it is the vector of the first number. */
  lemma {:induction false} SeedIsVector(p: nat, depth: nat, start: int)
    requires p >= 1 && (p >= 2 || start == 0)
    ensures var seed := Pad(SeedDigits(p, start), depth);
            |seed| <= depth ==> FirstNumber(p, depth, start) < Power(p, depth)
                                && seed == Vector(p, depth, FirstNumber(p, depth, start))
    ensures |Pad(SeedDigits(p, start), depth)| > depth ==> FirstNumber(p, depth, start) == Power(p, depth)
  {
    var v := SeedDigits(p, start);
    if |v| <= depth {
      PadZeros(v, depth);
      PaddedVector(p, depth, v);
      ValueBound(p, v);
      PowerGrows(p, |v|, depth);
    }
  }

  /** A digit tuple padded to `d` places is the vector of its value. */
  lemma {:induction false} PaddedVector(p: nat, d: nat, v: seq<nat>)
    requires p >= 1 && Digits(p, v) && |v| <= d
    ensures Zeros(d - |v|) + v == Vector(p, d, Value(p, v))
  {
    var z := Zeros(d - |v|);
    ZerosDigits(p, d - |v|);
    assert Digits(p, z + v) by {
      forall k | 0 <= k < |z + v| ensures (z + v)[k] < p {
        if k < |z| {
          assert (z + v)[k] == z[k];
        } else {
          assert (z + v)[k] == v[k - |z|];
        }
      }
    }
    LeadingZeros(p, d - |v|, v);
    ValueVector(p, z + v);
  }

  lemma {:induction false} ZerosDigits(p: nat, k: nat)
    requires p >= 1
    ensures Digits(p, Zeros(k))
  {
    if k > 0 {
      ZerosDigits(p, k - 1);
    }
  }

  /** Zeros at the front do not change the value of a digit tuple. */
  lemma {:induction false} LeadingZeros(p: nat, k: nat, v: seq<nat>)
    ensures Value(p, Zeros(k) + v) == Value(p, v)
  {
    if k > 0 {
      LeadingZeros(p, k - 1, v);
      ZeroFront(p, Zeros(k - 1) + v);
      assert Zeros(k) + v == [0] + (Zeros(k - 1) + v);
    } else {
      assert Zeros(k) + v == v;
    }
  }

  lemma {:induction false} ZeroFront(p: nat, w: seq<nat>)
    ensures Value(p, [0] + w) == Value(p, w)
    decreases |w|
  {
    if |w| > 0 {
      var pre := w[..|w| - 1];
      ZeroFront(p, pre);
      assert ([0] + w)[..|w|] == [0] + pre;
    }
  }

  /** The seed digits of a natural number stand for that number. */
  lemma {:induction false} ValueOfDigits(p: nat, n: nat)
    requires p >= 2
    ensures Value(p, SeedDigits(p, n)) == n
    decreases n
  {
    if n > 0 {
      DivSmaller(p, n);
      ValueOfDigits(p, n / p);
      ValueSnoc(p, SeedDigits(p, n / p), n % p);
      QuotientRemainder(n, p);
    }
  }

  lemma {:induction false} DivSmaller(p: nat, s: nat)
    requires p >= 2 && s != 0
    ensures 0 <= s / p < s
  {
    var q := s / p;
    assert q * p + s % p == s;
    MulAtLeast(p, q);
    if q >= s {
      assert q * p >= q;
      MulTwice(p, q);
      assert false;
    }
  }

  lemma {:induction false} MulTwice(p: nat, q: nat)
    requires p >= 2
    ensures q * p >= q + q
  {
    assert q * p == q * (p - 2) + q + q;
  }

  lemma {:induction false} PadZeros(v: seq<nat>, d: nat)
    requires |v| <= d
    ensures Pad(v, d) == Zeros(d - |v|) + v
    decreases d - |v|
  {
    if |v| < d {
      PadZeros([0] + v, d);
      ZerosSnoc(d - |v| - 1);
      assert Zeros(d - |v| - 1) + ([0] + v) == Zeros(d - |v| - 1) + [0] + v;
    }
  }

  lemma {:induction false} ZerosSnoc(k: nat)
    ensures Zeros(k) + [0] == Zeros(k + 1)
  {
    if k > 0 {
      ZerosSnoc(k - 1);
      assert [0] + Zeros(k - 1) + [0] == [0] + (Zeros(k - 1) + [0]);
    }
  }

  /** Below `p^d`, the digits of `n` fit in `d` places. */
  lemma {:induction false} DigitsFit(p: nat, d: nat, n: nat)
    requires p >= 2 && n < Power(p, d)
    ensures |SeedDigits(p, n)| <= d
  {
    if n > 0 {
      assert d > 0;
      DivBelow(n, p, Power(p, d - 1));
      DigitsFit(p, d - 1, n / p);
    }
  }

  /** At `p^d` or beyond, the digits of `n` need more than `d` places. */
  lemma {:induction false} DigitsOverflow(p: nat, d: nat, n: nat)
    requires p >= 2 && n >= Power(p, d)
    ensures |SeedDigits(p, n)| > d
  {
    if d > 0 {
      DivAbove(n, p, Power(p, d - 1));
      PowerPositive(p, d - 1);
      DigitsOverflow(p, d - 1, n / p);
    } else {
      assert n > 0;
    }
  }

  /**
   * As written, `product` seeds the odometer with the unpadded digits of `start` even
   * when `start >= P^depth`, and yields that tuple, which is longer than `depth`.
   */
  lemma {:induction false} StartOverrun(p: nat, depth: nat, start: nat)
    requires p >= 2 && start >= Power(p, depth)
    ensures |Pad(SeedDigits(p, start), depth)| > depth
  {
    DigitsOverflow(p, depth, start);
  }

  /** The smallest instance: two patterns, depth 1, start 2 yields the tuple `[1, 0]`. */
  lemma {:induction false} StartOverrunExample()
    ensures Power(2, 1) == 2
    ensures Pad(SeedDigits(2, 2), 1) == [1, 0]
  {
    assert SeedDigits(2, 1) == SeedDigits(2, 0) + [1];
    assert SeedDigits(2, 2) == SeedDigits(2, 1) + [0];
  }

  /** A negative start: two patterns, depth 1, start -1 (program set 0 of size 1) seeds
      the odometer with `[1]`, the last tuple, which is yielded. */
  lemma {:induction false} NegativeStartExample()
    ensures Pad(SeedDigits(2, -1), 1) == [1]
    ensures FirstNumber(2, 1, -1) == 1
  {
    assert TruncDiv(-1, 2) == 0;
    assert SeedDigits(2, -1) == SeedDigits(2, 0) + [1];
  }

  /** A negative start overruns too: two patterns, depth 1, start -2 (program set 0 of
      size 2) seeds the odometer with `[1, 0]`, longer than `depth`; the corrected odometer
      starts past the last tuple. */
  lemma {:induction false} NegativeOverrunExample()
    ensures Pad(SeedDigits(2, -2), 1) == [1, 0]
    ensures FirstNumber(2, 1, -2) == Power(2, 1)
  {
    assert TruncDiv(-2, 2) == -1;
    assert TruncDiv(-1, 2) == 0;
    assert SeedDigits(2, -1) == SeedDigits(2, 0) + [1];
    assert SeedDigits(2, -2) == SeedDigits(2, -1) + [0];
  }

  // ---------------------------------------------------------------- the odometer

  /**
   * `inc(v, i)`: add one at digit `i`, carrying into the digits before it; reports
   * overflow (the source's OverflowError) when the carry leaves digit 0.
   */
  method Inc(v: array<nat>, p: nat, i: nat) returns (overflow: bool)
    requires p >= 1 && i < v.Length
    requires Digits(p, v[..])
    modifies v
    ensures Digits(p, v[..])
    ensures v[i + 1..] == old(v[i + 1..])
    ensures overflow <==> Value(p, old(v[..i + 1])) + 1 == Power(p, i + 1)
    ensures !overflow ==> Value(p, v[..i + 1]) == Value(p, old(v[..i + 1])) + 1
    decreases i
  {
    ghost var before := v[..];
    v[i] := v[i] + 1;
    if v[i] > p - 1 {
      v[i] := 0;
      assert v[..] == before[i := 0];
      DigitsUpdate(p, before, i, 0);
      UpdateAfter(before, i, 0, v[..]);
      if i == 0 {
        IncTop(p, before);
        return true;
      }
      ghost var mid := v[..];
      overflow := Inc(v, p, i - 1);
      CarryAfter(before, mid, v[..], i);
      IncCarry(p, before, mid, v[..], i);
    } else {
      overflow := false;
      assert v[..] == before[i := before[i] + 1];
      DigitsUpdate(p, before, i, before[i] + 1);
      UpdateAfter(before, i, before[i] + 1, v[..]);
      IncNoCarry(p, before, v[..], i);
    }
  }

  lemma {:induction false} DigitsUpdate(p: nat, v: seq<nat>, i: nat, x: nat)
    requires Digits(p, v) && i < |v| && x < p
    ensures Digits(p, v[i := x])
  {
  }

  lemma {:induction false} UpdateAfter(before: seq<nat>, i: nat, x: nat, after: seq<nat>)
    requires i < |before| && after == before[i := x]
    ensures after[i + 1..] == before[i + 1..]
  {
  }

  /** The carry leaves the digits after `i` as they were before the wrap. */
  lemma {:induction false} CarryAfter(before: seq<nat>, mid: seq<nat>, after: seq<nat>, i: nat)
    requires i < |before| == |mid| == |after| && mid[i + 1..] == before[i + 1..]
    requires after[i..] == mid[i..]
    ensures after[i + 1..] == before[i + 1..]
  {
    assert after[i + 1..] == after[i..][1..];
    assert mid[i + 1..] == mid[i..][1..];
  }

  /** Digit 0 at its largest value: one more leaves the tuple's range. */
  lemma {:induction false} IncTop(p: nat, before: seq<nat>)
    requires p >= 1 && |before| > 0 && before[0] == p - 1
    ensures Value(p, before[..1]) + 1 == Power(p, 1)
  {
    assert before[..1][..0] == [];
  }

  /** The carry-free step of `Inc`. */
  lemma {:induction false} IncNoCarry(p: nat, before: seq<nat>, after: seq<nat>, i: nat)
    requires p >= 1 && i < |before| == |after| && Digits(p, before)
    requires after[i] == before[i] + 1 && after[i] < p
    requires forall k :: 0 <= k < |after| && k != i ==> after[k] == before[k]
    ensures !(Value(p, before[..i + 1]) + 1 == Power(p, i + 1))
    ensures Value(p, after[..i + 1]) == Value(p, before[..i + 1]) + 1
  {
    var pre := before[..i];
    assert before[..i + 1][..i] == pre;
    assert after[..i + 1][..i] == pre;
    assert Digits(p, pre) by {
      assert forall k :: 0 <= k < |pre| ==> pre[k] == before[k];
    }
    ValueBound(p, pre);
    BelowNext(Value(p, pre), after[i], Power(p, i), p);
  }

  /** The carrying step of `Inc`: digit `i` wraps to 0 and digit `i - 1` is incremented. */
  lemma {:induction false} IncCarry(p: nat, before: seq<nat>, mid: seq<nat>, after: seq<nat>, i: nat)
    requires p >= 1 && 0 < i < |before| == |mid| == |after|
    requires before[i] == p - 1 && mid[i] == 0
    requires forall k :: 0 <= k < |mid| && k != i ==> mid[k] == before[k]
    requires after[i..] == mid[i..]
    requires Value(p, mid[..i]) + 1 != Power(p, i) ==> Value(p, after[..i]) == Value(p, mid[..i]) + 1
    ensures Value(p, before[..i + 1]) + 1 == Power(p, i + 1) <==> Value(p, mid[..i]) + 1 == Power(p, i)
    ensures Value(p, mid[..i]) + 1 != Power(p, i) ==> Value(p, after[..i + 1]) == Value(p, before[..i + 1]) + 1
  {
    var pre := before[..i];
    assert mid[..i] == pre;
    assert before[..i + 1][..i] == pre;
    assert after[i] == 0 by {
      assert after[i..][0] == mid[i..][0];
    }
    assert after[..i + 1][..i] == after[..i];
    var a, m := Value(p, pre), Power(p, i);
    assert Value(p, before[..i + 1]) + 1 == (a + 1) * p;
    assert Power(p, i + 1) == m * p;
    MulCancel(a + 1, m, p);
  }

  /**
   * The odometer. The source's generator is collected into the sequence of tuples it
   * yields: the vectors of the numbers from `FirstNumber` to the last tuple. It does not
   * start when the seed is past the last tuple: where the seed loop as written never ends
   * (one pattern, `start != 0`) and where it yields a seed longer than `depth` (see
   * `StartOverrun`), the odometer yields nothing.
   */
  method Product(p: nat, depth: nat, start: int) returns (vs: seq<seq<nat>>)
    requires p >= 1 && depth >= 1
    ensures |vs| == Power(p, depth) - FirstNumber(p, depth, start)
    ensures forall k :: 0 <= k < |vs| ==> vs[k] == Vector(p, depth, FirstNumber(p, depth, start) + k)
  {
    if p == 1 && start != 0 {
      PowerOfOne(depth);
      return [];
    }
    var first := StartVector(p, depth, start);
    SeedIsVector(p, depth, start);
    if |first| > depth {
      return [];
    }
    ghost var n0 := FirstNumber(p, depth, start);
    var total := Power(p, depth);
    var val := new nat[depth];
    forall k | 0 <= k < depth {
      val[k] := first[k];
    }
    assert val[..] == first;
    vs := [];
    ghost var n := n0;
    while true
      invariant n0 <= n < total
      invariant val[..] == Vector(p, depth, n)
      invariant |vs| == n - n0
      invariant forall k :: 0 <= k < |vs| ==> vs[k] == Vector(p, depth, n0 + k)
      decreases total - n
    {
      vs := vs + [val[..]];
      var overflow := Turn(val, p, n);
      if overflow {
        return;
      }
      n := n + 1;
    }
  }

  /** `inc(val, depth - 1)` on the vector of `n`: the vector of `n + 1`, or overflow after
      the last tuple. */
  method Turn(val: array<nat>, p: nat, ghost n: nat) returns (overflow: bool)
    requires p >= 1 && val.Length >= 1 && n < Power(p, val.Length)
    requires val[..] == Vector(p, val.Length, n)
    modifies val
    ensures overflow <==> n + 1 == Power(p, val.Length)
    ensures !overflow ==> val[..] == Vector(p, val.Length, n + 1)
  {
    ghost var before := val[..];
    assert val[..val.Length] == val[..];
    overflow := Inc(val, p, val.Length - 1);
    assert val[..val.Length] == val[..];
    OdometerStep(p, val.Length, n, before, val[..], overflow);
  }

  /** One turn of the odometer: it overflows exactly after the last tuple, and otherwise
      moves on to the vector of the next number. */
  lemma {:induction false} OdometerStep(p: nat, depth: nat, n: nat, before: seq<nat>, after: seq<nat>, overflow: bool)
    requires p >= 1 && n < Power(p, depth) && before == Vector(p, depth, n)
    requires |after| == depth && Digits(p, after)
    requires overflow <==> Value(p, before) + 1 == Power(p, depth)
    requires !overflow ==> Value(p, after) == Value(p, before) + 1
    ensures overflow <==> n + 1 == Power(p, depth)
    ensures !overflow ==> after == Vector(p, depth, n + 1)
  {
    VectorValue(p, depth, n);
    if !overflow {
      ValueVector(p, after);
    }
  }
}
