/**
 * The handful of Python string operations the program relies on: `str.strip`,
 * `str.split` with an explicit separator, `str.join`, `in` on strings, `str(int)`
 * and `int(str)`, written out over `seq<char>`.
 */
module Text {
  import opened Wrappers

  /** Python's `str.isspace()` for a single character. */
  predicate IsSpace(c: char) {
    var n := c as int;
    (9 <= n <= 13) || (28 <= n <= 32) || n == 0x85 || n == 0xA0 || n == 0x1680
    || (0x2000 <= n <= 0x200A) || n == 0x2028 || n == 0x2029 || n == 0x202F
    || n == 0x205F || n == 0x3000
  }

  predicate NoSpace(s: string) {
    forall k :: 0 <= k < |s| ==> !IsSpace(s[k])
  }

  predicate AllSpace(s: string) {
    forall k :: 0 <= k < |s| ==> IsSpace(s[k])
  }

  function LStrip(s: string): string {
    if |s| > 0 && IsSpace(s[0]) then LStrip(s[1..]) else s
  }

  function RStrip(s: string): string {
    if |s| > 0 && IsSpace(s[|s| - 1]) then RStrip(s[..|s| - 1]) else s
  }

  /** Python's `s.strip()`: whitespace removed at both ends. */
  function Strip(s: string): string {
    RStrip(LStrip(s))
  }

  lemma {:induction false} LStripPadded(pre: string, s: string)
    requires AllSpace(pre)
    requires |s| == 0 || !IsSpace(s[0])
    ensures LStrip(pre + s) == s
  {
    if |pre| > 0 {
      assert (pre + s)[1..] == pre[1..] + s;
      LStripPadded(pre[1..], s);
    } else {
      assert pre + s == s;
    }
  }

  lemma {:induction false} RStripPadded(s: string, post: string)
    requires AllSpace(post)
    requires |s| == 0 || !IsSpace(s[|s| - 1])
    ensures RStrip(s + post) == s
  {
    if |post| > 0 {
      assert (s + post)[..|s + post| - 1] == s + post[..|post| - 1];
      RStripPadded(s, post[..|post| - 1]);
    } else {
      assert s + post == s;
    }
  }

  /** Stripping `pre + s + post` gives back `s` when the padding is whitespace and `s` is not padded. */
  lemma {:induction false} StripPadded(pre: string, s: string, post: string)
    requires AllSpace(pre) && AllSpace(post)
    requires |s| == 0 || (!IsSpace(s[0]) && !IsSpace(s[|s| - 1]))
    ensures Strip(pre + s + post) == s
  {
    if |s| == 0 {
      assert pre + s + post == pre + post;
      LStripAllSpace(pre + post);
    } else {
      assert pre + s + post == pre + (s + post);
      LStripPadded(pre, s + post);
      RStripPadded(s, post);
    }
  }

  /** Stripping only removes characters: a character absent before is absent after. */
  lemma {:induction false} LStripAvoids(s: string, c: char)
    requires Avoids(s, c)
    ensures Avoids(LStrip(s), c)
    decreases |s|
  {
    if |s| > 0 && IsSpace(s[0]) {
      LStripAvoids(s[1..], c);
    }
  }

  lemma {:induction false} RStripAvoids(s: string, c: char)
    requires Avoids(s, c)
    ensures Avoids(RStrip(s), c)
    decreases |s|
  {
    if |s| > 0 && IsSpace(s[|s| - 1]) {
      RStripAvoids(s[..|s| - 1], c);
    }
  }

  lemma {:induction false} StripAvoids(s: string, c: char)
    requires Avoids(s, c)
    ensures Avoids(Strip(s), c)
  {
    LStripAvoids(s, c);
    RStripAvoids(LStrip(s), c);
  }

  lemma {:induction false} LStripAllSpace(s: string)
    requires AllSpace(s)
    ensures LStrip(s) == ""
  {
    if |s| > 0 {
      LStripAllSpace(s[1..]);
    }
  }

  lemma {:induction false} StripNoSpace(s: string)
    requires NoSpace(s)
    ensures Strip(s) == s
  {
    StripPadded("", s, "");
    assert "" + s + "" == s;
  }

  /**
   * Python's `s.split(sep)` for a non-empty separator: the string is scanned from the left
   * and cut at every non-overlapping occurrence of `sep`; `cur` is the piece being collected.
   */
  function SplitFrom(s: string, sep: string, cur: string): (r: seq<string>)
    requires |sep| > 0
    ensures |r| >= 1
    decreases |s|
  {
    if |s| == 0 then [cur]
    else if sep <= s then [cur] + SplitFrom(s[|sep|..], sep, "")
    else SplitFrom(s[1..], sep, cur + [s[0]])
  }

  function Split(s: string, sep: string): seq<string>
    requires |sep| > 0
  {
    SplitFrom(s, sep, "")
  }

  /** Python's `sep.join(parts)`. */
  function Join(parts: seq<string>, sep: string): string {
    if |parts| == 0 then ""
    else if |parts| == 1 then parts[0]
    else parts[0] + sep + Join(parts[1..], sep)
  }

  /** No occurrence of `sep` starts at any of the first `k` positions of `s`. */
  predicate NoMatchBefore(s: string, sep: string, k: int) {
    forall i :: 0 <= i < k && i <= |s| ==> !(sep <= s[i..])
  }

  /** Python's `sub in s`. */
  predicate Contains(s: string, sub: string) {
    !NoMatchBefore(s, sub, |s| + 1)
  }

  /** Scanning over a stretch in which no separator starts just extends the current piece. */
  lemma {:induction false} SplitSkip(a: string, rest: string, sep: string, cur: string)
    requires |sep| > 0
    requires NoMatchBefore(a + rest, sep, |a|)
    ensures SplitFrom(a + rest, sep, cur) == SplitFrom(rest, sep, cur + a)
    decreases |a|
  {
    if |a| == 0 {
      assert a + rest == rest;
      assert cur + a == cur;
    } else {
      assert (a + rest)[0..] == a + rest;
      assert (a + rest)[1..] == a[1..] + rest;
      forall i | 0 <= i < |a[1..]| && i <= |a[1..] + rest|
        ensures !(sep <= (a[1..] + rest)[i..])
      {
        assert (a[1..] + rest)[i..] == (a + rest)[i + 1..];
      }
      SplitSkip(a[1..], rest, sep, cur + [a[0]]);
      assert cur + [a[0]] + a[1..] == cur + a;
    }
  }

  lemma {:induction false} SplitAtSep(sep: string, b: string, cur: string)
    requires |sep| > 0
    ensures SplitFrom(sep + b, sep, cur) == [cur] + SplitFrom(b, sep, "")
  {
    assert sep <= sep + b;
    assert (sep + b)[|sep|..] == b;
  }

  /** `a + sep + b` splits into `a` followed by the pieces of `b` when no separator starts inside `a`. */
  lemma {:induction false} SplitCons(a: string, sep: string, b: string, cur: string)
    requires |sep| > 0
    requires NoMatchBefore(a + sep + b, sep, |a|)
    ensures SplitFrom(a + sep + b, sep, cur) == [cur + a] + SplitFrom(b, sep, "")
  {
    assert a + sep + b == a + (sep + b);
    SplitSkip(a, sep + b, sep, cur);
    SplitAtSep(sep, b, cur + a);
  }

  /** A string in which no separator occurs is a single piece. */
  lemma {:induction false} SplitWhole(a: string, sep: string, cur: string)
    requires |sep| > 0
    requires NoMatchBefore(a, sep, |a|)
    ensures SplitFrom(a, sep, cur) == [cur + a]
  {
    assert a + "" == a;
    SplitSkip(a, "", sep, cur);
  }

  predicate Avoids(s: string, c: char) {
    forall k :: 0 <= k < |s| ==> s[k] != c
  }

  /** Scanning a string in which `sep` starts at position `i` cuts it at least once. */
  lemma {:induction false} SplitFromAt(s: string, sep: string, cur: string, i: nat)
    requires |sep| > 0 && i <= |s| && sep <= s[i..]
    ensures |SplitFrom(s, sep, cur)| >= 2
    decreases |s|
  {
    if !(sep <= s) {
      assert s[0..] == s;
      assert s[1..][i - 1..] == s[i..];
      SplitFromAt(s[1..], sep, cur + [s[0]], i - 1);
    }
  }

  /** `s.split(sep)` has a second piece whenever `sep in s`. */
  lemma {:induction false} ContainsSplits(s: string, sep: string)
    requires |sep| > 0 && Contains(s, sep)
    ensures |Split(s, sep)| >= 2
  {
    var i :| 0 <= i < |s| + 1 && i <= |s| && sep <= s[i..];
    SplitFromAt(s, sep, "", i);
  }

  /** The pieces `split` cuts at a single character do not contain it. */
  lemma {:induction false} SplitPartsAvoid(s: string, c: char, cur: string)
    requires Avoids(cur, c)
    ensures forall k :: 0 <= k < |SplitFrom(s, [c], cur)| ==> Avoids(SplitFrom(s, [c], cur)[k], c)
    decreases |s|
  {
    if |s| == 0 {
    } else if [c] <= s {
      SplitPartsAvoid(s[1..], c, "");
      assert SplitFrom(s, [c], cur) == [cur] + SplitFrom(s[1..], [c], "");
    } else {
      assert s[0] != c;
      assert Avoids(cur + [s[0]], c);
      SplitPartsAvoid(s[1..], c, cur + [s[0]]);
    }
  }

  /** Splitting on a single character undoes joining with it, when no part contains it. */
  lemma {:induction false} SplitJoinChar(parts: seq<string>, c: char)
    requires |parts| >= 1
    requires forall k :: 0 <= k < |parts| ==> Avoids(parts[k], c)
    ensures Split(Join(parts, [c]), [c]) == parts
  {
    if |parts| == 1 {
      forall i | 0 <= i < |parts[0]| && i <= |parts[0]|
        ensures !([c] <= parts[0][i..])
      {
        assert parts[0][i..][0] == parts[0][i];
      }
      SplitWhole(parts[0], [c], "");
      assert "" + parts[0] == parts[0];
    } else {
      var a, b := parts[0], Join(parts[1..], [c]);
      forall i | 0 <= i < |a| && i <= |a + [c] + b|
        ensures !([c] <= (a + [c] + b)[i..])
      {
        assert (a + [c] + b)[i..][0] == a[i];
      }
      SplitCons(a, [c], b, "");
      SplitJoinChar(parts[1..], c);
      assert "" + a == a;
      assert parts == [a] + parts[1..];
    }
  }

  /** `part` followed by a separator holds no separator that starts inside `part`. */
  predicate Sealed(part: string, sep: string) {
    NoMatchBefore(part + sep, sep, |part|)
  }

  lemma {:induction false} SealedExtend(a: string, sep: string, b: string)
    requires |sep| > 0 && Sealed(a, sep)
    ensures NoMatchBefore(a + sep + b, sep, |a|)
  {
    forall i | 0 <= i < |a| && i <= |a + sep + b|
      ensures !(sep <= (a + sep + b)[i..])
    {
      assert !(sep <= (a + sep)[i..]);
    }
  }

  lemma {:induction false} SealedAlone(a: string, sep: string)
    requires |sep| > 0 && Sealed(a, sep)
    ensures NoMatchBefore(a, sep, |a|)
  {
    forall i | 0 <= i < |a| && i <= |a|
      ensures !(sep <= a[i..])
    {
      assert !(sep <= (a + sep)[i..]);
    }
  }

  /** Splitting undoes joining when no separator can be found inside or across a part. */
  lemma {:induction false} SplitJoinSealed(parts: seq<string>, sep: string)
    requires |sep| > 0 && |parts| >= 1
    requires forall k :: 0 <= k < |parts| ==> Sealed(parts[k], sep)
    ensures Split(Join(parts, sep), sep) == parts
  {
    if |parts| == 1 {
      SealedAlone(parts[0], sep);
      SplitWhole(parts[0], sep, "");
      assert "" + parts[0] == parts[0];
    } else {
      var rest := Join(parts[1..], sep);
      SealedExtend(parts[0], sep, rest);
      SplitCons(parts[0], sep, rest, "");
      SplitJoinSealed(parts[1..], sep);
      assert "" + parts[0] == parts[0];
      assert parts == [parts[0]] + parts[1..];
    }
  }

  /** Joining the pieces of a split with the separator gives the scanned text back. */
  lemma {:induction false} SplitRejoin(s: string, sep: string, cur: string)
    requires |sep| > 0
    ensures Join(SplitFrom(s, sep, cur), sep) == cur + s
    decreases |s|
  {
    if |s| == 0 {
      assert cur + s == cur;
    } else if sep <= s {
      var rest := s[|sep|..];
      SplitRejoin(rest, sep, "");
      assert s == sep + rest;
      assert "" + rest == rest;
      var tail := SplitFrom(rest, sep, "");
      assert SplitFrom(s, sep, cur) == [cur] + tail;
      assert ([cur] + tail)[1..] == tail;
    } else {
      SplitRejoin(s[1..], sep, cur + [s[0]]);
      assert cur + [s[0]] + s[1..] == cur + s;
    }
  }

  /** `sep.join(s.split(sep)) == s`. */
  lemma {:induction false} JoinSplit(s: string, sep: string)
    requires |sep| > 0
    ensures Join(Split(s, sep), sep) == s
  {
    SplitRejoin(s, sep, "");
    assert "" + s == s;
  }

  /** Lines each followed by a newline, as a file is written line by line. */
  function Terminated(ls: seq<string>): string {
    if |ls| == 0 then "" else ls[0] + "\n" + Terminated(ls[1..])
  }

  /** Splitting newline-terminated lines on newlines gives the lines back, then the pieces of
      whatever follows them. */
  lemma {:induction false} SplitTerminated(ls: seq<string>, rest: string)
    requires forall k :: 0 <= k < |ls| ==> Avoids(ls[k], '\n')
    ensures SplitFrom(Terminated(ls) + rest, "\n", "") == ls + SplitFrom(rest, "\n", "")
  {
    if |ls| == 0 {
      assert Terminated(ls) + rest == rest;
    } else {
      var a := ls[0];
      var tail := Terminated(ls[1..]) + rest;
      assert Terminated(ls) + rest == a + "\n" + tail;
      forall i | 0 <= i < |a| && i <= |a + "\n" + tail|
        ensures !("\n" <= (a + "\n" + tail)[i..])
      {
        assert (a + "\n" + tail)[i..][0] == a[i];
      }
      SplitCons(a, "\n", tail, "");
      SplitTerminated(ls[1..], rest);
      assert "" + a == a;
      assert ls == [a] + ls[1..];
    }
  }

  /** `str(n)` is a minus sign and digits. */
  lemma {:induction false} IntToStringChars(n: int)
    ensures forall k :: 0 <= k < |IntToString(n)| ==> IntToString(n)[k] == '-' || IsDigit(IntToString(n)[k])
    ensures IsDigit(IntToString(n)[|IntToString(n)| - 1])
  {
    if n < 0 {
      var t := NatToString(-n);
      assert IntToString(n) == "-" + t;
      assert forall k :: 1 <= k < |IntToString(n)| ==> IntToString(n)[k] == t[k - 1];
    }
  }

  // ---------------------------------------------------------------- integers

  predicate IsDigit(c: char) {
    '0' <= c <= '9'
  }

  predicate AllDigits(s: string) {
    forall k :: 0 <= k < |s| ==> IsDigit(s[k])
  }

  function DigitChar(d: nat): char
    requires d < 10
  {
    ('0' as int + d) as char
  }

  function DigitsValue(s: string): nat
    requires AllDigits(s)
  {
    if |s| == 0 then 0 else DigitsValue(s[..|s| - 1]) * 10 + (s[|s| - 1] as int - '0' as int)
  }

  /** Decimal digits of a natural number, most significant first, without leading zeros. */
  function NatToString(n: nat): (s: string)
    ensures |s| > 0 && AllDigits(s)
  {
    if n < 10 then [DigitChar(n)] else NatToString(n / 10) + [DigitChar(n % 10)]
  }

  /** Python's `str(n)`. */
  function IntToString(n: int): (s: string)
    ensures |s| > 0 && NoSpace(s)
    ensures n >= 0 ==> AllDigits(s)
  {
    if n < 0 then "-" + NatToString(-n) else NatToString(n)
  }

  /**
   * Python's `int(s)` on decimal text: surrounding whitespace is ignored, then an optional
   * sign and at least one digit; anything else raises ValueError (here None).
   */
  function ParseInt(s: string): Option<int> {
    var t := Strip(s);
    if |t| > 0 && (t[0] == '-' || t[0] == '+') then
      if |t| > 1 && AllDigits(t[1..]) then
        var v: int := DigitsValue(t[1..]);
        Some(if t[0] == '-' then -v else v)
      else None
    else if |t| > 0 && AllDigits(t) then Some(DigitsValue(t))
    else None
  }

  lemma {:induction false} NatToStringValue(n: nat)
    ensures DigitsValue(NatToString(n)) == n
  {
    var s := NatToString(n);
    if n >= 10 {
      NatToStringValue(n / 10);
      assert s[..|s| - 1] == NatToString(n / 10);
    }
  }

  /** `int(str(n)) == n`, also with whitespace around the digits. */
  lemma {:induction false} ParseIntOfString(pre: string, n: int, post: string)
    requires AllSpace(pre) && AllSpace(post)
    ensures ParseInt(pre + IntToString(n) + post) == Some(n)
  {
    var s := IntToString(n);
    StripPadded(pre, s, post);
    if n < 0 {
      assert s[1..] == NatToString(-n);
      NatToStringValue(-n);
    } else {
      NatToStringValue(n);
    }
  }

  /** Different integers print differently. */
  lemma {:induction false} IntToStringInjective(m: int, n: int)
    requires IntToString(m) == IntToString(n)
    ensures m == n
  {
    ParseIntOfString("", m, "");
    ParseIntOfString("", n, "");
    assert "" + IntToString(m) + "" == IntToString(m);
    assert "" + IntToString(n) + "" == IntToString(n);
  }
}
