/** The text layout of a saved job: nine sections separated by the `!!` marker. */
module JobLayout {
  import opened Text

  lemma {:induction false} JoinNine(t: seq<string>)
    requires |t| == 9
    ensures Join(t, "!!") == t[0] + "!!" + t[1] + "!!" + t[2] + "!!" + t[3] + "!!" + t[4]
                             + "!!" + t[5] + "!!" + t[6] + "!!" + t[7] + "!!" + t[8]
  {
    assert Join(t[8..], "!!") == t[8];
    assert Join(t[7..], "!!") == t[7] + "!!" + Join(t[8..], "!!") by { assert t[7..][1..] == t[8..]; }
    assert Join(t[6..], "!!") == t[6] + "!!" + Join(t[7..], "!!") by { assert t[6..][1..] == t[7..]; }
    assert Join(t[5..], "!!") == t[5] + "!!" + Join(t[6..], "!!") by { assert t[5..][1..] == t[6..]; }
    assert Join(t[4..], "!!") == t[4] + "!!" + Join(t[5..], "!!") by { assert t[4..][1..] == t[5..]; }
    assert Join(t[3..], "!!") == t[3] + "!!" + Join(t[4..], "!!") by { assert t[3..][1..] == t[4..]; }
    assert Join(t[2..], "!!") == t[2] + "!!" + Join(t[3..], "!!") by { assert t[2..][1..] == t[3..]; }
    assert Join(t[1..], "!!") == t[1] + "!!" + Join(t[2..], "!!") by { assert t[1..][1..] == t[2..]; }
  }

  // Regroupings of one marker between the pieces `save` appends.
  lemma {:induction false} MarkerLead(lit: string, x: string, tail: string)
    ensures ("!!" + lit) + x + tail == "" + "!!" + (lit + x + tail)
  {
  }

  lemma {:induction false} MarkerGlue(y: string, lit: string, x: string, tail: string)
    ensures y + ("!!" + lit) + x + tail == y + "!!" + (lit + x + tail)
  {
  }

  lemma {:induction false} MarkerCarry(y: string, lit: string, x: string, lit2: string)
    ensures y + "!!" + lit + x + ("\n" + ("!!" + lit2)) == y + "!!" + (lit + x + "\n") + "!!" + lit2
  {
  }

  lemma {:induction false} MarkerClose(y: string, lit: string, x: string)
    ensures y + "!!" + lit + x == y + "!!" + (lit + x)
  {
  }

  /** Each section header `save` writes starts with the marker. */
  lemma {:induction false} MarkerLiterals()
    ensures "!!depth " == "!!" + "depth "
    ensures "!!var_shadow " == "!!" + "var_shadow "
    ensures "!!program_set_size " == "!!" + "program_set_size "
    ensures "!!program_set " == "!!" + "program_set "
    ensures "!!patterns\n" == "!!" + "patterns\n"
    ensures "\n!!functions\n" == "\n" + ("!!" + "functions\n")
    ensures "\n!!constants\n" == "\n" + ("!!" + "constants\n")
    ensures "\n!!constraints\n" == "\n" + ("!!" + "constraints\n")
  {
  }

  lemma {:induction false} SavedShape(d: string, v: string, ss: string, ps: string, p: string, f: string, c: string, k: string)
    ensures "!!depth " + d + "\n" + "!!var_shadow " + v + "\n\n" + "!!program_set_size " + ss + "\n"
            + "!!program_set " + ps + "\n\n"
            + "!!patterns\n" + p + "\n!!functions\n" + f + "\n!!constants\n" + c + "\n!!constraints\n" + k
         == Join(["", "depth " + d + "\n", "var_shadow " + v + "\n\n", "program_set_size " + ss + "\n",
                  "program_set " + ps + "\n\n", "patterns\n" + p + "\n", "functions\n" + f + "\n",
                  "constants\n" + c + "\n", "constraints\n" + k], "!!")
  {
    var t := ["", "depth " + d + "\n", "var_shadow " + v + "\n\n", "program_set_size " + ss + "\n",
              "program_set " + ps + "\n\n", "patterns\n" + p + "\n", "functions\n" + f + "\n",
              "constants\n" + c + "\n", "constraints\n" + k];
    JoinNine(t);
    MarkerLiterals();
    var s1 := "!!depth " + d + "\n";
    var r1 := "" + "!!" + t[1];
    MarkerLead("depth ", d, "\n");
    assert s1 == r1;
    var s2 := s1 + "!!var_shadow " + v + "\n\n";
    var r2 := r1 + "!!" + t[2];
    MarkerGlue(s1, "var_shadow ", v, "\n\n");
    assert s2 == r2;
    var s3 := s2 + "!!program_set_size " + ss + "\n";
    var r3 := r2 + "!!" + t[3];
    MarkerGlue(s2, "program_set_size ", ss, "\n");
    assert s3 == r3;
    var s4 := s3 + "!!program_set " + ps + "\n\n";
    var r4 := r3 + "!!" + t[4];
    MarkerGlue(s3, "program_set ", ps, "\n\n");
    assert s4 == r4;
    var s5 := s4 + "!!patterns\n" + p + "\n!!functions\n";
    var r5 := r4 + "!!" + t[5];
    MarkerCarry(s4, "patterns\n", p, "functions\n");
    assert s5 == r5 + "!!" + "functions\n";
    var s6 := s5 + f + "\n!!constants\n";
    var r6 := r5 + "!!" + t[6];
    MarkerCarry(r5, "functions\n", f, "constants\n");
    assert s6 == r6 + "!!" + "constants\n";
    var s7 := s6 + c + "\n!!constraints\n";
    var r7 := r6 + "!!" + t[7];
    MarkerCarry(r6, "constants\n", c, "constraints\n");
    assert s7 == r7 + "!!" + "constraints\n";
    MarkerClose(r7, "constraints\n", k);
  }
}

/**
 * `Job.create(job.save())` gives the job back, for a job whose pattern file names are plain
 * words and which defines no functions (cold/cold.py, class Job).
 */
module ColdJobRoundTrip {
  import opened Wrappers
  import opened Text
  import opened ColdJob
  import opened JobLayout

  /** No two consecutive `!`, so the name cannot be mistaken for a section marker. */
  predicate NoBangPair(s: string) {
    forall i :: 0 <= i < |s| - 1 ==> !(s[i] == '!' && s[i + 1] == '!')
  }

  predicate Bangless(s: string) {
    forall i :: 0 <= i < |s| ==> s[i] != '!'
  }

  /** A job `save` writes so that `create` reads it back: pattern file names are non-empty,
      hold no whitespace and no `!!`, and the job defines no functions. */
  predicate Saveable(job: Job) {
    && job.functions == []
    && (forall k :: 0 <= k < |job.patternFiles| ==>
          job.patternFiles[k] != "" && NoSpace(job.patternFiles[k]) && NoBangPair(job.patternFiles[k]))
    && DistinctKeys(job.constraints)
  }

  lemma {:induction false} BangSealed(s: string)
    requires NoBangPair(s) && (|s| == 0 || s[|s| - 1] != '!')
    ensures Sealed(s, "!!")
  {
    forall i | 0 <= i < |s| && i <= |s + "!!"|
      ensures !("!!" <= (s + "!!")[i..])
    {
      assert (s + "!!")[i..][0] == s[i];
      if i + 1 < |s| {
        assert (s + "!!")[i..][1] == s[i + 1];
      }
    }
  }

  lemma {:induction false} BanglessSealed(s: string)
    requires Bangless(s)
    ensures Sealed(s, "!!")
  {
    BangSealed(s);
  }

  function Tab(ls: seq<string>): (r: seq<string>)
    ensures |r| == |ls|
  {
    if |ls| == 0 then [] else ["\t" + ls[0]] + Tab(ls[1..])
  }

  lemma {:induction false} TabIndex(ls: seq<string>, k: int)
    requires 0 <= k < |ls|
    ensures Tab(ls)[k] == "\t" + ls[k]
  {
    if k > 0 {
      TabIndex(ls[1..], k - 1);
    }
  }

  function IntTexts(cs: seq<int>): (r: seq<string>)
    ensures |r| == |cs|
  {
    if |cs| == 0 then [] else [IntToString(cs[0])] + IntTexts(cs[1..])
  }

  function PairText(kv: (int, int)): string {
    IntToString(kv.0) + " => " + IntToString(kv.1)
  }

  function PairTexts(cs: seq<(int, int)>): (r: seq<string>)
    ensures |r| == |cs|
  {
    if |cs| == 0 then [] else [PairText(cs[0])] + PairTexts(cs[1..])
  }

  lemma {:induction false} PatternLinesTerminated(files: seq<string>)
    ensures PatternLines(files) == Terminated(Tab(files))
  {
    if |files| > 0 {
      PatternLinesTerminated(files[1..]);
      assert Tab(files)[1..] == Tab(files[1..]);
    }
  }

  lemma {:induction false} ConstantLinesTerminated(cs: seq<int>)
    ensures ConstantLines(cs) == Terminated(Tab(IntTexts(cs)))
  {
    if |cs| > 0 {
      ConstantLinesTerminated(cs[1..]);
      assert Tab(IntTexts(cs))[1..] == Tab(IntTexts(cs[1..]));
    }
  }

  lemma {:induction false} ConstraintLinesTerminated(cs: seq<(int, int)>)
    ensures ConstraintLines(cs) == Terminated(Tab(PairTexts(cs)))
  {
    if |cs| > 0 {
      ConstraintLinesTerminated(cs[1..]);
      assert Tab(PairTexts(cs))[1..] == Tab(PairTexts(cs[1..]));
    }
  }

  /** Newline-terminated lines none of which contains `!` next to another. */
  lemma {:induction false} TerminatedNoBangPair(ls: seq<string>)
    requires forall k :: 0 <= k < |ls| ==> NoBangPair(ls[k])
    ensures NoBangPair(Terminated(ls))
    ensures |Terminated(ls)| == 0 || Terminated(ls)[|Terminated(ls)| - 1] == '\n'
  {
    if |ls| > 0 {
      TerminatedNoBangPair(ls[1..]);
      var a, t := ls[0], Terminated(ls[1..]);
      assert Terminated(ls) == a + "\n" + t;
      forall i | 0 <= i < |a + "\n" + t| - 1
        ensures !((a + "\n" + t)[i] == '!' && (a + "\n" + t)[i + 1] == '!')
      {
        if i < |a| - 1 {
          assert (a + "\n" + t)[i] == a[i] && (a + "\n" + t)[i + 1] == a[i + 1];
        } else if i > |a| {
          assert (a + "\n" + t)[i] == t[i - |a| - 1] && (a + "\n" + t)[i + 1] == t[i - |a|];
        }
      }
    }
  }

  lemma {:induction false} TabChars(s: string)
    ensures ("\t" + s)[0] == '\t'
    ensures forall k :: 1 <= k < |"\t" + s| ==> ("\t" + s)[k] == s[k - 1]
  {
  }

  /** The four integer settings and every section but the pattern list hold no `!`. */
  lemma {:induction false} IntTextBangless(n: int)
    ensures Bangless(IntToString(n))
  {
    IntToStringChars(n);
  }

  /** The sections `save` writes, the empty text before the first marker included. */
  function SectionTexts(job: Job): seq<string> {
    [ "",
      "depth " + IntToString(job.depth) + "\n",
      "var_shadow " + IntToString(job.varShadow) + "\n\n",
      "program_set_size " + IntToString(job.programSetSize) + "\n",
      "program_set " + IntToString(job.programSet) + "\n\n",
      "patterns\n" + PatternLines(job.patternFiles) + "\n",
      "functions\n" + FunctionLines(job.functions) + "\n",
      "constants\n" + ConstantLines(job.constants) + "\n",
      "constraints\n" + ConstraintLines(job.constraints) ]
  }

  /** What `save` writes is its nine sections joined by the section marker. */
  lemma {:induction false} SavedSections(job: Job)
    ensures Saved(job) == Join(SectionTexts(job), "!!")
  {
    SavedShape(IntToString(job.depth), IntToString(job.varShadow), IntToString(job.programSetSize),
      IntToString(job.programSet), PatternLines(job.patternFiles), FunctionLines(job.functions),
      ConstantLines(job.constants), ConstraintLines(job.constraints));
  }

  lemma {:induction false} NoBangPairConcat(a: string, b: string)
    requires NoBangPair(a) && NoBangPair(b)
    requires |a| == 0 || |b| == 0 || a[|a| - 1] != '!' || b[0] != '!'
    ensures NoBangPair(a + b)
  {
    forall i | 0 <= i < |a + b| - 1
      ensures !((a + b)[i] == '!' && (a + b)[i + 1] == '!')
    {
      if i + 1 < |a| {
        assert (a + b)[i] == a[i] && (a + b)[i + 1] == a[i + 1];
      } else if i >= |a| {
        assert (a + b)[i] == b[i - |a|] && (a + b)[i + 1] == b[i + 1 - |a|];
      }
    }
  }

  lemma {:induction false} PatternLinesNoBangPair(files: seq<string>)
    requires forall k :: 0 <= k < |files| ==> NoBangPair(files[k])
    ensures NoBangPair(PatternLines(files))
  {
    PatternLinesTerminated(files);
    var ls := Tab(files);
    forall k | 0 <= k < |ls| ensures NoBangPair(ls[k]) {
      TabIndex(files, k);
      TabChars(files[k]);
    }
    TerminatedNoBangPair(ls);
  }

  lemma {:induction false} WrapSealed(pre: string, body: string, post: string)
    requires Bangless(pre) && NoBangPair(body) && Bangless(post) && |post| > 0
    ensures Sealed(pre + body + post, "!!")
  {
    NoBangPairConcat(pre, body);
    NoBangPairConcat(pre + body, post);
    assert (pre + body + post)[|pre + body + post| - 1] == post[|post| - 1];
    BangSealed(pre + body + post);
  }

  lemma {:induction false} PatternsSealed(files: seq<string>)
    requires forall k :: 0 <= k < |files| ==> NoBangPair(files[k])
    ensures Sealed("patterns\n" + PatternLines(files) + "\n", "!!")
  {
    var body := PatternLines(files);
    PatternLinesNoBangPair(files);
    PatternsHeaderBangless();
    assert Bangless("\n");
    WrapSealed("patterns\n", body, "\n");
  }

  lemma {:induction false} PatternsHeaderBangless()
    ensures Bangless("patterns\n")
  {
  }

  /** Every section `save` writes for a saveable job is read as one section. */
  lemma {:induction false} SectionsSealed(job: Job)
    requires Saveable(job)
    ensures forall k :: 0 <= k < |SectionTexts(job)| ==> Sealed(SectionTexts(job)[k], "!!")
  {
    var t := SectionTexts(job);
    IntTextBangless(job.depth);
    IntTextBangless(job.varShadow);
    IntTextBangless(job.programSetSize);
    IntTextBangless(job.programSet);
    BanglessSealed(t[0]);
    BanglessSealed(t[1]);
    BanglessSealed(t[2]);
    BanglessSealed(t[3]);
    BanglessSealed(t[4]);
    PatternsSealed(job.patternFiles);
    assert t[6] == "functions\n\n";
    BanglessSealed(t[6]);
    ConstantsBangless(job.constants);
    BanglessSealed(t[7]);
    ConstraintsBangless(job.constraints);
    BanglessSealed(t[8]);
  }

  lemma {:induction false} ConstantsBangless(cs: seq<int>)
    ensures Bangless("constants\n" + ConstantLines(cs) + "\n")
  {
    ConstantLinesBangless(cs);
  }

  lemma {:induction false} ConstantLinesBangless(cs: seq<int>)
    ensures Bangless(ConstantLines(cs))
  {
    if |cs| > 0 {
      IntTextBangless(cs[0]);
      ConstantLinesBangless(cs[1..]);
    }
  }

  lemma {:induction false} ConstraintsBangless(cs: seq<(int, int)>)
    ensures Bangless("constraints\n" + ConstraintLines(cs))
  {
    ConstraintLinesBangless(cs);
  }

  lemma {:induction false} ConstraintLinesBangless(cs: seq<(int, int)>)
    ensures Bangless(ConstraintLines(cs))
  {
    if |cs| > 0 {
      IntTextBangless(cs[0].0);
      IntTextBangless(cs[0].1);
      ConstraintLinesBangless(cs[1..]);
    }
  }

  // ------------------------------------------------------- reading back

  /** A section body of newline-terminated lines after the header's newline. */
  lemma {:induction false} SplitSectionLines(ls: seq<string>)
    requires forall k :: 0 <= k < |ls| ==> Avoids(ls[k], '\n')
    ensures Split("\n" + Terminated(ls) + "\n", "\n") == [""] + ls + ["", ""]
  {
    SplitTerminated(ls, "\n");
    SplitAfterNewline(Terminated(ls), ls);
  }

  lemma {:induction false} SplitAfterNewline(t: string, ls: seq<string>)
    requires SplitFrom(t + "\n", "\n", "") == ls + SplitFrom("\n", "\n", "")
    ensures Split("\n" + t + "\n", "\n") == [""] + ls + ["", ""]
  {
    assert "\n" + t + "\n" == "\n" + (t + "\n");
    SplitAtSep("\n", t + "\n", "");
    SplitNewline();
  }

  lemma {:induction false} SplitNewline()
    ensures SplitFrom("\n", "\n", "") == ["", ""]
  {
    SplitAtSep("\n", "", "");
    assert "\n" + "" == "\n";
  }

  lemma {:induction false} SplitSectionLast(ls: seq<string>)
    requires forall k :: 0 <= k < |ls| ==> Avoids(ls[k], '\n')
    ensures Split("\n" + Terminated(ls), "\n") == [""] + ls + [""]
  {
    var t := Terminated(ls);
    SplitAtSep("\n", t, "");
    SplitTerminated(ls, "");
    assert t + "" == t;
  }

  lemma {:induction false} StripTab(s: string)
    requires |s| > 0 && !IsSpace(s[0]) && !IsSpace(s[|s| - 1])
    ensures Strip("\t" + s) == s
  {
    assert AllSpace("\t");
    StripPadded("\t", s, "");
    assert "\t" + s + "" == "\t" + s;
  }

  lemma {:induction false} TabAvoids(s: string)
    requires Avoids(s, '\n')
    ensures Avoids("\t" + s, '\n')
  {
    TabChars(s);
  }

  lemma {:induction false} IntTextShape(n: int)
    ensures |IntToString(n)| > 0
    ensures !IsSpace(IntToString(n)[0]) && !IsSpace(IntToString(n)[|IntToString(n)| - 1])
    ensures Avoids(IntToString(n), '\n') && Avoids(IntToString(n), '=')
  {
    IntToStringChars(n);
  }

  /** The pattern lines name the files, in order. */
  lemma {:induction false} AddPatternsTab(acc: seq<string>, files: seq<string>, rest: seq<string>)
    requires forall k :: 0 <= k < |files| ==> files[k] != "" && NoSpace(files[k])
    ensures AddPatterns(acc, Tab(files) + rest) == AddPatterns(acc + files, rest)
    decreases |files|
  {
    if |files| == 0 {
      assert Tab(files) + rest == rest;
      assert acc + files == acc;
    } else {
      var lines := Tab(files) + rest;
      assert lines[0] == "\t" + files[0];
      assert lines[1..] == Tab(files[1..]) + rest;
      StripTab(files[0]);
      AddPatternsTab(acc + [files[0]], files[1..], rest);
      assert acc + [files[0]] + files[1..] == acc + files;
    }
  }

  /** The constant lines give the constants, in order. */
  lemma {:induction false} AddConstantsTab(acc: seq<int>, cs: seq<int>, rest: seq<string>)
    ensures AddConstants(acc, Tab(IntTexts(cs)) + rest) == AddConstants(acc + cs, rest)
    decreases |cs|
  {
    if |cs| == 0 {
      assert Tab(IntTexts(cs)) + rest == rest;
      assert acc + cs == acc;
    } else {
      var lines := Tab(IntTexts(cs)) + rest;
      var next := acc + [cs[0]];
      TabIntTextsTail(cs, rest);
      IntLineRead(cs[0]);
      calc {
        AddConstants(acc, lines);
        { AddConstantsStep(acc, lines, cs[0]); }
        AddConstants(next, Tab(IntTexts(cs[1..])) + rest);
        { AddConstantsTab(next, cs[1..], rest); }
        AddConstants(next + cs[1..], rest);
        { assert next + cs[1..] == acc + cs; }
        AddConstants(acc + cs, rest);
      }
    }
  }

  lemma {:induction false} AddConstantsStep(acc: seq<int>, lines: seq<string>, n: int)
    requires |lines| > 0 && Strip(lines[0]) != "" && ParseInt(Strip(lines[0])) == Some(n)
    ensures AddConstants(acc, lines) == AddConstants(acc + [n], lines[1..])
  {
  }

  lemma {:induction false} TabIntTextsTail(cs: seq<int>, rest: seq<string>)
    requires |cs| > 0
    ensures (Tab(IntTexts(cs)) + rest)[0] == "\t" + IntToString(cs[0])
    ensures (Tab(IntTexts(cs)) + rest)[1..] == Tab(IntTexts(cs[1..])) + rest
  {
    assert IntTexts(cs)[0] == IntToString(cs[0]) && IntTexts(cs)[1..] == IntTexts(cs[1..]);
    TabTail(IntTexts(cs), rest);
  }

  /** A tabbed constant line is not blank and reads back as the constant. */
  lemma {:induction false} IntLineRead(n: int)
    ensures Strip("\t" + IntToString(n)) != ""
    ensures ParseInt(Strip("\t" + IntToString(n))) == Some(n)
  {
    IntTextShape(n);
    StripTab(IntToString(n));
    ParseIntOfString("", n, "");
    assert "" + IntToString(n) + "" == IntToString(n);
  }

  /** `str(k) + " => " + str(v)` is cut at the arrow into two pieces. */
  lemma {:induction false} SplitPairText(kv: (int, int))
    ensures Split(PairText(kv), "=>") == [IntToString(kv.0) + " ", " " + IntToString(kv.1)]
  {
    var a, b := IntToString(kv.0) + " ", " " + IntToString(kv.1);
    IntTextShape(kv.0);
    IntTextShape(kv.1);
    SpacedAvoids(IntToString(kv.0), " ");
    SpacedAvoids(" ", IntToString(kv.1));
    assert PairText(kv) == a + "=>" + b;
    assert a + "=>" + b == a + ("=>" + b);
    NoArrowBefore(a, "=>" + b);
    SplitCons(a, "=>", b, "");
    assert b + "" == b;
    NoArrowBefore(b, "");
    SplitWhole(b, "=>", "");
    assert "" + a == a && "" + b == b;
  }

  lemma {:induction false} SpacedAvoids(x: string, y: string)
    requires Avoids(x, '=') && Avoids(y, '=')
    ensures Avoids(x + y, '=')
  {
    forall k | 0 <= k < |x + y| ensures (x + y)[k] != '=' {
      if k >= |x| {
        assert (x + y)[k] == y[k - |x|];
      }
    }
  }

  /** No arrow starts inside a text free of `=`. */
  lemma {:induction false} NoArrowBefore(a: string, rest: string)
    requires Avoids(a, '=')
    ensures NoMatchBefore(a + rest, "=>", |a|)
  {
    forall i | 0 <= i < |a| && i <= |a + rest|
      ensures !("=>" <= (a + rest)[i..])
    {
      assert (a + rest)[i..][0] == a[i];
    }
  }

  /** `int(s.strip())` reads `str(n)` back from either side of the arrow. */
  lemma {:induction false} ParsePaddedInt(n: int)
    ensures ParseInt(Strip(IntToString(n) + " ")) == Some(n)
    ensures ParseInt(Strip(" " + IntToString(n))) == Some(n)
  {
    var s := IntToString(n);
    IntTextShape(n);
    assert AllSpace(" ") && AllSpace("");
    StripPadded("", s, " ");
    assert "" + s + " " == s + " ";
    StripPadded(" ", s, "");
    assert " " + s + "" == " " + s;
    ParseIntOfString("", n, "");
    assert "" + s + "" == s;
  }

  /** `str(k) + " => " + str(v)` is read back as the pair. */
  lemma {:induction false} ParsePairText(kv: (int, int))
    ensures ParseConstraint(PairText(kv)) == Some(kv)
  {
    SplitPairText(kv);
    ParsePaddedInt(kv.0);
    ParsePaddedInt(kv.1);
  }

  /** With distinct inputs, each constraint read is new and is appended. */
  lemma {:induction false} FreshKey(acc: seq<(int, int)>, cs: seq<(int, int)>)
    requires |cs| > 0 && DistinctKeys(acc + cs)
    ensures PutConstraint(acc, cs[0].0, cs[0].1) == acc + [cs[0]]
    ensures acc + [cs[0]] + cs[1..] == acc + cs
    ensures DistinctKeys(acc + [cs[0]] + cs[1..])
  {
    forall j | 0 <= j < |acc| ensures acc[j].0 != cs[0].0 {
      assert (acc + cs)[j] == acc[j] && (acc + cs)[|acc|] == cs[0];
    }
    PutConstraintNew(acc, cs[0].0, cs[0].1);
    assert acc + [cs[0]] + cs[1..] == acc + cs;
  }

  lemma {:induction false} PairTextShape(kv: (int, int))
    ensures |PairText(kv)| > 0
    ensures !IsSpace(PairText(kv)[0]) && !IsSpace(PairText(kv)[|PairText(kv)| - 1])
    ensures Avoids(PairText(kv), '\n')
  {
    var a, b := IntToString(kv.0), IntToString(kv.1);
    IntTextShape(kv.0);
    IntTextShape(kv.1);
    var s := PairText(kv);
    assert s == a + (" => " + b);
    assert s[0] == a[0];
    assert s[|s| - 1] == b[|b| - 1];
    forall k | 0 <= k < |s| ensures s[k] != '\n' {
      if k < |a| {
        assert s[k] == a[k];
      } else if k >= |a| + 4 {
        assert s[k] == b[k - |a| - 4];
      }
    }
  }

  /** The constraint lines give the constraints, in order, when no input repeats. */
  lemma {:induction false} AddConstraintsTab(acc: seq<(int, int)>, cs: seq<(int, int)>, rest: seq<string>)
    requires DistinctKeys(acc + cs)
    ensures AddConstraints(acc, Tab(PairTexts(cs)) + rest) == AddConstraints(acc + cs, rest)
    decreases |cs|
  {
    if |cs| == 0 {
      assert Tab(PairTexts(cs)) + rest == rest;
      assert acc + cs == acc;
    } else {
      var lines := Tab(PairTexts(cs)) + rest;
      var next := acc + [cs[0]];
      TabPairTextsTail(cs, rest);
      PairLineRead(cs[0]);
      FreshKey(acc, cs);
      calc {
        AddConstraints(acc, lines);
        { AddConstraintsStep(acc, lines, cs[0]); }
        AddConstraints(next, Tab(PairTexts(cs[1..])) + rest);
        { AddConstraintsTab(next, cs[1..], rest); }
        AddConstraints(next + cs[1..], rest);
      }
    }
  }

  lemma {:induction false} AddConstraintsStep(acc: seq<(int, int)>, lines: seq<string>, kv: (int, int))
    requires |lines| > 0 && Strip(lines[0]) != "" && ParseConstraint(Strip(lines[0])) == Some(kv)
    ensures AddConstraints(acc, lines) == AddConstraints(PutConstraint(acc, kv.0, kv.1), lines[1..])
  {
  }

  lemma {:induction false} TabPairTextsTail(cs: seq<(int, int)>, rest: seq<string>)
    requires |cs| > 0
    ensures (Tab(PairTexts(cs)) + rest)[0] == "\t" + PairText(cs[0])
    ensures (Tab(PairTexts(cs)) + rest)[1..] == Tab(PairTexts(cs[1..])) + rest
  {
    PairTextsTail(cs);
    TabTail(PairTexts(cs), rest);
  }

  lemma {:induction false} PairTextsTail(cs: seq<(int, int)>)
    requires |cs| > 0
    ensures PairTexts(cs)[0] == PairText(cs[0]) && PairTexts(cs)[1..] == PairTexts(cs[1..])
  {
  }

  lemma {:induction false} TabTail(ls: seq<string>, rest: seq<string>)
    requires |ls| > 0
    ensures (Tab(ls) + rest)[0] == "\t" + ls[0]
    ensures (Tab(ls) + rest)[1..] == Tab(ls[1..]) + rest
  {
    var tab := Tab(ls);
    assert tab[0] == "\t" + ls[0];
    assert tab[1..] == Tab(ls[1..]);
    assert (tab + rest)[1..] == tab[1..] + rest;
  }

  lemma {:induction false} PairLineRead(kv: (int, int))
    ensures Strip("\t" + PairText(kv)) != ""
    ensures ParseConstraint(Strip("\t" + PairText(kv))) == Some(kv)
  {
    PairTextShape(kv);
    StripTab(PairText(kv));
    ParsePairText(kv);
  }

  // ------------------------------------------------------ one section each

  /** A section's first line, regrouped as its key followed by the rest of the section. */
  lemma {:induction false} Regroup(line: string, key: string, gap: string, text: string, tail: string)
    requires line == key + gap
    ensures line + text + tail == key + (gap + text + tail)
  {
    assert line + text + tail == key + (gap + text + tail);
  }

  /** The same, for the last section, which has nothing after its lines. */
  lemma {:induction false} RegroupLast(line: string, key: string, lines: string)
    requires line == key + "\n"
    ensures line + lines == key + ("\n" + lines)
  {
  }

  lemma {:induction false} Header(key: string, rest: string)
    ensures key <= key + rest
    ensures Drop(key + rest, |key|) == rest
  {
    assert (key + rest)[..|key|] == key;
    assert (key + rest)[|key|..] == rest;
  }

  lemma {:induction false} Differs(p: string, s: string, i: nat)
    requires i < |p| && i < |s| && p[i] != s[i]
    ensures !(p <= s)
  {
  }

  lemma {:induction false} IntTextsIndex(cs: seq<int>, k: int)
    requires 0 <= k < |cs|
    ensures IntTexts(cs)[k] == IntToString(cs[k])
    decreases k
  {
    if k > 0 {
      IntTextsIndex(cs[1..], k - 1);
    }
  }

  lemma {:induction false} PairTextsIndex(cs: seq<(int, int)>, k: int)
    requires 0 <= k < |cs|
    ensures PairTexts(cs)[k] == PairText(cs[k])
    decreases k
  {
    if k > 0 {
      PairTextsIndex(cs[1..], k - 1);
    }
  }

  lemma {:induction false} PaddingSpace()
    ensures AllSpace(" ") && AllSpace("\n") && AllSpace("\n\n")
  {
  }

  /** `!!depth <n>` sets the depth. */
  lemma {:induction false} ReadDepth(j: Job, n: int)
    ensures ApplySection(j, "depth " + IntToString(n) + "\n") == Some(j.(depth := n))
  {
    var body := " " + IntToString(n) + "\n";
    var s := "depth" + body;
    assert "depth " == "depth" + " ";
    Regroup("depth ", "depth", " ", IntToString(n), "\n");
    Header("depth", body);
    Differs("patterns", s, 0);
    PaddingSpace();
    ParseIntOfString(" ", n, "\n");
  }

  /** `!!var_shadow <n>` sets the shadow distance. */
  lemma {:induction false} ReadVarShadow(j: Job, n: int)
    ensures ApplySection(j, "var_shadow " + IntToString(n) + "\n\n") == Some(j.(varShadow := n))
  {
    var body := " " + IntToString(n) + "\n\n";
    var s := "var_shadow" + body;
    assert "var_shadow " == "var_shadow" + " ";
    Regroup("var_shadow ", "var_shadow", " ", IntToString(n), "\n\n");
    Header("var_shadow", body);
    Differs("patterns", s, 0);
    Differs("depth", s, 0);
    PaddingSpace();
    ParseIntOfString(" ", n, "\n\n");
  }

  /** `!!program_set_size <n>` sets the window size. */
  lemma {:induction false} ReadProgramSetSize(j: Job, n: int)
    ensures ApplySection(j, "program_set_size " + IntToString(n) + "\n") == Some(j.(programSetSize := n))
  {
    var body := " " + IntToString(n) + "\n";
    var s := "program_set_size" + body;
    assert "program_set_size " == "program_set_size" + " ";
    Regroup("program_set_size ", "program_set_size", " ", IntToString(n), "\n");
    Header("program_set_size", body);
    Differs("patterns", s, 1);
    Differs("depth", s, 0);
    Differs("var_shadow", s, 0);
    PaddingSpace();
    ParseIntOfString(" ", n, "\n");
  }

  /** `!!program_set <n>` selects the window; it is not mistaken for `program_set_size`. */
  lemma {:induction false} ReadProgramSet(j: Job, n: int)
    ensures ApplySection(j, "program_set " + IntToString(n) + "\n\n") == Some(j.(programSet := n))
  {
    var body := " " + IntToString(n) + "\n\n";
    var s := "program_set" + body;
    assert "program_set " == "program_set" + " ";
    Regroup("program_set ", "program_set", " ", IntToString(n), "\n\n");
    assert s[11] == ' ';
    Header("program_set", body);
    Differs("patterns", s, 1);
    Differs("depth", s, 0);
    Differs("var_shadow", s, 0);
    Differs("program_set_size", s, 11);
    PaddingSpace();
    ParseIntOfString(" ", n, "\n\n");
  }

  /** `!!patterns` appends the listed files. */
  lemma {:induction false} ReadPatterns(j: Job, files: seq<string>)
    requires forall k :: 0 <= k < |files| ==> files[k] != "" && NoSpace(files[k])
    ensures ApplySection(j, "patterns\n" + PatternLines(files) + "\n")
         == Some(j.(patternFiles := j.patternFiles + files))
  {
    var ls := Tab(files);
    PatternLinesTerminated(files);
    var body := "\n" + Terminated(ls) + "\n";
    assert "patterns\n" == "patterns" + "\n";
    Regroup("patterns\n", "patterns", "\n", PatternLines(files), "\n");
    PatternsSection(j, body);
    TabFilesAvoid(files);
    SplitSectionLines(ls);
    PatternLinesRead(j.patternFiles, files);
  }

  lemma {:induction false} PatternsSection(j: Job, body: string)
    ensures ApplySection(j, "patterns" + body)
         == Some(j.(patternFiles := AddPatterns(j.patternFiles, Split(body, "\n"))))
  {
    Header("patterns", body);
  }

  lemma {:induction false} TabFilesAvoid(files: seq<string>)
    requires forall k :: 0 <= k < |files| ==> NoSpace(files[k])
    ensures forall k :: 0 <= k < |Tab(files)| ==> Avoids(Tab(files)[k], '\n')
  {
    forall k | 0 <= k < |files| ensures Avoids(Tab(files)[k], '\n') {
      TabIndex(files, k);
      TabAvoids(files[k]);
    }
  }

  lemma {:induction false} PatternLinesRead(acc: seq<string>, files: seq<string>)
    requires forall k :: 0 <= k < |files| ==> files[k] != "" && NoSpace(files[k])
    ensures AddPatterns(acc, [""] + Tab(files) + ["", ""]) == acc + files
  {
    var lines := [""] + Tab(files) + ["", ""];
    assert lines[1..] == Tab(files) + ["", ""];
    AddPatternsTab(acc, files, ["", ""]);
  }

  /** `!!functions` with no function defined leaves the job as it is. */
  lemma {:induction false} ReadNoFunctions(j: Job)
    ensures ApplySection(j, "functions\n" + FunctionLines([]) + "\n") == Some(j)
  {
    var body := "\n\n";
    var s := "functions" + body;
    assert "functions\n" + FunctionLines([]) + "\n" == s;
    Header("functions", body);
    Differs("patterns", s, 0);
    Differs("depth", s, 0);
    Differs("var_shadow", s, 0);
    Differs("program_set_size", s, 0);
    Differs("program_set", s, 0);
    NoDefinitions();
  }

  lemma {:induction false} NoDefinitions()
    ensures forall fs :: AddFunctions(fs, Split("\n\n", "def ")) == Some(fs)
  {
    var b := "\n\n";
    forall i | 0 <= i < |b| && i <= |b| ensures !("def " <= b[i..]) {
      assert b[i..][0] == '\n';
    }
    SplitWhole(b, "def ", "");
    assert "" + b == b;
    PaddingSpace();
    LStripAllSpace(b);
  }

  /** `!!constants` appends the listed constants. */
  lemma {:induction false} ReadConstants(j: Job, cs: seq<int>)
    ensures ApplySection(j, "constants\n" + ConstantLines(cs) + "\n")
         == Some(j.(constants := j.constants + cs))
  {
    var ls := Tab(IntTexts(cs));
    ConstantLinesTerminated(cs);
    var body := "\n" + Terminated(ls) + "\n";
    var s := "constants" + body;
    assert "constants\n" == "constants" + "\n";
    Regroup("constants\n", "constants", "\n", ConstantLines(cs), "\n");
    Header("constants", body);
    Differs("patterns", s, 0);
    Differs("depth", s, 0);
    Differs("var_shadow", s, 0);
    Differs("program_set_size", s, 0);
    Differs("program_set", s, 0);
    Differs("functions", s, 0);
    forall k | 0 <= k < |ls| ensures Avoids(ls[k], '\n') {
      IntTextsIndex(cs, k);
      TabIndex(IntTexts(cs), k);
      IntTextShape(cs[k]);
      TabAvoids(IntToString(cs[k]));
    }
    SplitSectionLines(ls);
    ConstantLinesRead(j.constants, cs);
  }

  lemma {:induction false} ConstantLinesRead(acc: seq<int>, cs: seq<int>)
    ensures AddConstants(acc, [""] + Tab(IntTexts(cs)) + ["", ""]) == Some(acc + cs)
  {
    var lines := [""] + Tab(IntTexts(cs)) + ["", ""];
    assert lines[1..] == Tab(IntTexts(cs)) + ["", ""];
    AddConstantsTab(acc, cs, ["", ""]);
  }

  /** `!!constraints` appends the listed pairs when no input repeats. */
  lemma {:induction false} ReadConstraints(j: Job, cs: seq<(int, int)>)
    requires DistinctKeys(j.constraints + cs)
    ensures ApplySection(j, "constraints\n" + ConstraintLines(cs))
         == Some(j.(constraints := j.constraints + cs))
  {
    var ls := Tab(PairTexts(cs));
    ConstraintLinesTerminated(cs);
    var body := "\n" + ConstraintLines(cs);
    assert "constraints\n" == "constraints" + "\n";
    RegroupLast("constraints\n", "constraints", ConstraintLines(cs));
    PairLinesAvoid(cs);
    SplitSectionLast(ls);
    ConstraintLinesRead(j.constraints, cs);
    ConstraintsSection(j, body, j.constraints + cs);
  }

  /** A section starting `constraints` and a newline is read by the constraints branch. */
  lemma {:induction false} ConstraintsSection(j: Job, body: string, cs: seq<(int, int)>)
    requires |body| > 0 && body[0] == '\n'
    requires AddConstraints(j.constraints, Split(body, "\n")) == Some(cs)
    ensures ApplySection(j, "constraints" + body) == Some(j.(constraints := cs))
  {
    var s := "constraints" + body;
    Header("constraints", body);
    Differs("patterns", s, 0);
    Differs("depth", s, 0);
    Differs("var_shadow", s, 0);
    Differs("program_set_size", s, 0);
    Differs("program_set", s, 0);
    Differs("functions", s, 0);
    Differs("constants", s, 5);
  }

  lemma {:induction false} PairLinesAvoid(cs: seq<(int, int)>)
    ensures forall k :: 0 <= k < |Tab(PairTexts(cs))| ==> Avoids(Tab(PairTexts(cs))[k], '\n')
  {
    var ls := Tab(PairTexts(cs));
    forall k | 0 <= k < |ls| ensures Avoids(ls[k], '\n') {
      PairTextsIndex(cs, k);
      TabIndex(PairTexts(cs), k);
      PairTextShape(cs[k]);
      TabAvoids(PairText(cs[k]));
    }
  }

  lemma {:induction false} ConstraintLinesRead(acc: seq<(int, int)>, cs: seq<(int, int)>)
    requires DistinctKeys(acc + cs)
    ensures AddConstraints(acc, [""] + Tab(PairTexts(cs)) + [""]) == Some(acc + cs)
  {
    var tab := Tab(PairTexts(cs));
    var lines := [""] + tab + [""];
    assert lines[0] == "" && lines[1..] == tab + [""];
    assert Strip("") == "" by { PaddingSpace(); }
    assert AddConstraints(acc, lines) == AddConstraints(acc, tab + [""]);
    AddConstraintsTab(acc, cs, [""]);
    assert AddConstraints(acc + cs, [""]) == Some(acc + cs) by {
      assert [""][1..] == [];
    }
  }

  // ------------------------------------------------------------ the whole

  lemma {:induction false} ApplyStep(j: Job, next: Job, ts: seq<string>, i: nat)
    requires i < |ts| && ApplySection(j, ts[i]) == Some(next)
    ensures ApplySections(j, ts[i..]) == ApplySections(next, ts[i + 1..])
  {
    assert ts[i..][0] == ts[i];
    assert ts[i..][1..] == ts[i + 1..];
  }

  /** The sections `save` writes are the pieces `create` cuts the document into. */
  lemma {:induction false} SavedSplit(job: Job)
    requires Saveable(job)
    ensures Split(Saved(job), "!!") == SectionTexts(job)
  {
    SavedSections(job);
    SectionsSealed(job);
    SplitJoinSealed(SectionTexts(job), "!!");
  }

  /** The four settings sections set the four integers of the defaults. */
  lemma {:induction false} ReadSettings(job: Job)
    ensures ApplySections(Default, SectionTexts(job))
         == ApplySections(Default.(depth := job.depth, varShadow := job.varShadow,
              programSetSize := job.programSetSize, programSet := job.programSet), SectionTexts(job)[5..])
  {
    var t := SectionTexts(job);
    var j1 := Default.(depth := job.depth);
    var j2 := j1.(varShadow := job.varShadow);
    var j3 := j2.(programSetSize := job.programSetSize);
    var j4 := j3.(programSet := job.programSet);
    assert t[0..] == t;
    ApplyStep(Default, Default, t, 0);
    ReadDepth(Default, job.depth);
    ApplyStep(Default, j1, t, 1);
    ReadVarShadow(j1, job.varShadow);
    ApplyStep(j1, j2, t, 2);
    ReadProgramSetSize(j2, job.programSetSize);
    ApplyStep(j2, j3, t, 3);
    ReadProgramSet(j3, job.programSet);
    ApplyStep(j3, j4, t, 4);
  }

  /** The list sections fill the lists of a job that has none yet. */
  lemma {:induction false} ReadLists(j: Job, job: Job)
    requires Saveable(job)
    requires j.patternFiles == [] && j.functions == [] && j.constants == [] && j.constraints == []
    ensures ApplySections(j, SectionTexts(job)[5..])
         == Some(j.(patternFiles := job.patternFiles, constants := job.constants, constraints := job.constraints))
  {
    var t := SectionTexts(job);
    var j5 := j.(patternFiles := job.patternFiles);
    var j7 := j5.(constants := job.constants);
    var j8 := j7.(constraints := job.constraints);
    ReadPatterns(j, job.patternFiles);
    assert [] + job.patternFiles == job.patternFiles;
    ReadNoFunctions(j5);
    ReadConstants(j5, job.constants);
    assert [] + job.constants == job.constants;
    assert [] + job.constraints == job.constraints;
    ReadConstraints(j7, job.constraints);
    FourSteps(j, j5, j5, j7, j8, t);
  }

  /** The last four of nine sections, applied one after another. */
  lemma {:induction false} FourSteps(j0: Job, j1: Job, j2: Job, j3: Job, j4: Job, t: seq<string>)
    requires |t| == 9
    requires ApplySection(j0, t[5]) == Some(j1) && ApplySection(j1, t[6]) == Some(j2)
    requires ApplySection(j2, t[7]) == Some(j3) && ApplySection(j3, t[8]) == Some(j4)
    ensures ApplySections(j0, t[5..]) == Some(j4)
  {
    ApplyStep(j0, j1, t, 5);
    ApplyStep(j1, j2, t, 6);
    ApplyStep(j2, j3, t, 7);
    ApplyStep(j3, j4, t, 8);
    assert t[9..] == [];
  }

  /** `Job.create(job.save())` is `job` again. */
  lemma {:induction false} CreateSave(job: Job)
    requires Saveable(job)
    ensures Parse(Saved(job)) == Some(job)
  {
    SavedSplit(job);
    ReadSettings(job);
    var j4 := Default.(depth := job.depth, varShadow := job.varShadow,
      programSetSize := job.programSetSize, programSet := job.programSet);
    ReadLists(j4, job);
  }
}
