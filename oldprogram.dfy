/**
 * The source format of the older register/stack interpreter (old/cold.py). A program is a
 * list of subs; each sub starts at a `name:` line and holds one command per line. A command
 * may carry a condition in parentheses, as in `(ax == 3) jump done`, and is executed only
 * when the condition holds. Blank lines and lines starting with `#` are ignored.
 */
module OldProgram {
  import opened Wrappers
  import opened Text

  /** The commands, one per `Line` subclass. */
  datatype Kind =
    | Superbu | Print | Jump | Return | Set | Push | Pop
    | Stash | Restore | And | Buffer | Kill | Read | Write

  /** A command line: its kind, the text outside parentheses and the condition inside them. */
  datatype Line = Line(kind: Kind, code: string, conditional: string)

  predicate NoParens(s: string) {
    Avoids(s, '(') && Avoids(s, ')')
  }

  // ---------------------------------------------------------------- Line.__init__

  /** The state of the scan in `Line.__init__`: both halves so far, and whether a `(` is open. */
  datatype Halves = Halves(code: string, conditional: string, inParen: bool)

  function HalvesChar(h: Halves, c: char): Halves {
    if c == '(' then h.(inParen := true)
    else if c == ')' then h.(inParen := false)
    else if h.inParen then h.(conditional := h.conditional + [c])
    else h.(code := h.code + [c])
  }

  function HalvesFrom(h: Halves, s: string): Halves
    decreases |s|
  {
    if |s| == 0 then h else HalvesFrom(HalvesChar(h, s[0]), s[1..])
  }

  /**
   * `Line.__init__`: the characters inside parentheses form the condition, all others the
   * code; both are stripped, and neither contains a parenthesis.
   */
  function Separate(text: string): (r: (string, string))
    ensures NoParens(r.0) && NoParens(r.1)
  {
    var h := HalvesFrom(Halves("", "", false), text);
    HalvesNoParens(Halves("", "", false), text);
    StripAvoids(h.code, '(');
    StripAvoids(h.code, ')');
    StripAvoids(h.conditional, '(');
    StripAvoids(h.conditional, ')');
    (Strip(h.code), Strip(h.conditional))
  }

  lemma {:induction false} HalvesNoParens(h: Halves, s: string)
    requires NoParens(h.code) && NoParens(h.conditional)
    ensures NoParens(HalvesFrom(h, s).code) && NoParens(HalvesFrom(h, s).conditional)
    decreases |s|
  {
    if |s| > 0 {
      var g := HalvesChar(h, s[0]);
      assert NoParens(g.code) && NoParens(g.conditional) by {
        if s[0] != '(' && s[0] != ')' {
          assert forall k :: 0 <= k < |h.code + [s[0]]| ==>
            (h.code + [s[0]])[k] == if k < |h.code| then h.code[k] else s[0];
          assert forall k :: 0 <= k < |h.conditional + [s[0]]| ==>
            (h.conditional + [s[0]])[k] == if k < |h.conditional| then h.conditional[k] else s[0];
        }
      }
      HalvesNoParens(g, s[1..]);
    }
  }

  /** Text without parentheses goes to the half that is open. */
  lemma {:induction false} HalvesText(h: Halves, s: string, rest: string)
    requires NoParens(s)
    ensures HalvesFrom(h, s + rest)
         == HalvesFrom(if h.inParen then h.(conditional := h.conditional + s)
                       else h.(code := h.code + s), rest)
    decreases |s|
  {
    if |s| == 0 {
      assert s + rest == rest;
      assert h.code + s == h.code && h.conditional + s == h.conditional;
    } else {
      assert (s + rest)[0] == s[0];
      assert (s + rest)[1..] == s[1..] + rest;
      var g := HalvesChar(h, s[0]);
      assert NoParens(s[1..]) by {
        assert forall k :: 0 <= k < |s[1..]| ==> s[1..][k] == s[k + 1];
      }
      HalvesText(g, s[1..], rest);
      assert h.code + [s[0]] + s[1..] == h.code + s;
      assert h.conditional + [s[0]] + s[1..] == h.conditional + s;
    }
  }

  /** `pre(cond)post` separates into the stripped `pre + post` and the stripped `cond`. */
  lemma {:induction false} SeparateCondition(pre: string, cond: string, post: string)
    requires NoParens(pre) && NoParens(cond) && NoParens(post)
    ensures Separate(pre + "(" + cond + ")" + post) == (Strip(pre + post), Strip(cond))
  {
    HalvesOfCondition(pre, cond, post);
  }

  /** The scan of `pre(cond)post` ends with `pre + post` as code and `cond` as condition. */
  lemma {:induction false} HalvesOfCondition(pre: string, cond: string, post: string)
    requires NoParens(pre) && NoParens(cond) && NoParens(post)
    ensures HalvesFrom(Halves("", "", false), pre + "(" + cond + ")" + post) == Halves(pre + post, cond, false)
  {
    var r3 := [')'] + post;
    var r2 := cond + r3;
    var r1 := ['('] + r2;
    ConditionParts(pre, cond, post, r1, r2, r3);
    HalvesText(Halves("", "", false), pre, r1);
    HalvesParen(Halves(pre, "", false), '(', r2);
    HalvesText(Halves(pre, "", true), cond, r3);
    HalvesParen(Halves(pre, cond, true), ')', post);
    HalvesText(Halves(pre, cond, false), post, "");
  }

  lemma {:induction false} ConditionParts(pre: string, cond: string, post: string, r1: string, r2: string, r3: string)
    requires r3 == [')'] + post && r2 == cond + r3 && r1 == ['('] + r2
    ensures pre + "(" + cond + ")" + post == pre + r1
    ensures "" + pre == pre && "" + cond == cond && post + "" == post && pre + post + "" == pre + post
  {
    assert pre + "(" + cond + ")" + post == pre + ("(" + (cond + (")" + post)));
  }

  /** A parenthesis only opens or closes the condition. */
  lemma {:induction false} HalvesParen(h: Halves, c: char, rest: string)
    requires c == '(' || c == ')'
    ensures HalvesFrom(h, [c] + rest) == HalvesFrom(h.(inParen := c == '('), rest)
  {
    assert ([c] + rest)[0] == c;
    assert ([c] + rest)[1..] == rest;
  }

  /** A line without parentheses has no condition. */
  lemma {:induction false} SeparateUnconditional(text: string)
    requires NoParens(text)
    ensures Separate(text) == (Strip(text), "")
  {
    HalvesText(Halves("", "", false), text, "");
    assert text + "" == text;
    assert "" + text == text;
  }

  /** The character loop of `Line.__init__`. */
  method Scan(text: string) returns (code: string, conditional: string)
    ensures (code, conditional) == Separate(text)
  {
    code, conditional := "", "";
    var inParen := false;
    for i := 0 to |text|
      invariant HalvesFrom(Halves(code, conditional, inParen), text[i..])
             == HalvesFrom(Halves("", "", false), text)
    {
      assert text[i..][1..] == text[i + 1..];
      var c := text[i];
      if c == '(' {
        inParen := true;
        continue;
      } else if c == ')' {
        inParen := false;
        continue;
      }
      if inParen {
        conditional := conditional + [c];
      } else {
        code := code + [c];
      }
    }
    code, conditional := Strip(code), Strip(conditional);
  }

  // ---------------------------------------------------------------- command words

  /** The command words `Program` tests for, in the order it tests them. */
  const Keywords: seq<(string, Kind)> := [
    ("superbu", Superbu), ("print", Print), ("jump", Jump), ("return", Return),
    ("set", Set), ("push", Push), ("pop", Pop), ("stash", Stash), ("restore", Restore),
    ("and", And), ("buffer", Buffer), ("kill", Kill), ("read", Read), ("write", Write)]

  /** The kind of the last of the first `n` keywords that starts `w` (a later test overrides). */
  function ClassifyUpTo(w: string, n: nat): (r: Option<Kind>)
    requires n <= |Keywords|
    ensures r.None? ==> forall k :: 0 <= k < n ==> !(Keywords[k].0 <= w)
    ensures r.Some? ==> exists k :: 0 <= k < n && Keywords[k].0 <= w && r.value == Keywords[k].1
  {
    if n == 0 then None
    else if Keywords[n - 1].0 <= w then Some(Keywords[n - 1].1)
    else ClassifyUpTo(w, n - 1)
  }

  function Classify(w: string): Option<Kind> {
    ClassifyUpTo(w, |Keywords|)
  }

  /** The position in `Keywords` of the word whose first three letters `w` starts with. */
  function StemIndex(w: string): int
    requires |w| >= 3
  {
    var s := w[..3];
    if s == "sup" then 0 else if s == "pri" then 1 else if s == "jum" then 2
    else if s == "ret" then 3 else if s == "set" then 4 else if s == "pus" then 5
    else if s == "pop" then 6 else if s == "sta" then 7 else if s == "res" then 8
    else if s == "and" then 9 else if s == "buf" then 10 else if s == "kil" then 11
    else if s == "rea" then 12 else if s == "wri" then 13 else -1
  }

  /** Every keyword is told apart from the others by its first three letters. */
  lemma {:induction false} KeywordStem(k: nat)
    requires k < |Keywords|
    ensures |Keywords[k].0| >= 3 && StemIndex(Keywords[k].0) == k
  {
    if k < 7 {
      KeywordStemFirst(k);
    } else {
      KeywordStemLast(k);
    }
  }

  lemma {:induction false} KeywordStemFirst(k: nat)
    requires k < 7
    ensures |Keywords[k].0| >= 3 && StemIndex(Keywords[k].0) == k
  {
    if k == 0 {
      assert Keywords[0].0 == "superbu" && "superbu"[..3] == "sup";
    } else if k == 1 {
      assert Keywords[1].0 == "print" && "print"[..3] == "pri";
    } else if k == 2 {
      assert Keywords[2].0 == "jump" && "jump"[..3] == "jum";
    } else if k == 3 {
      assert Keywords[3].0 == "return" && "return"[..3] == "ret";
    } else if k == 4 {
      assert Keywords[4].0 == "set" && "set"[..3] == "set";
    } else if k == 5 {
      assert Keywords[5].0 == "push" && "push"[..3] == "pus";
    } else {
      assert Keywords[6].0 == "pop" && "pop"[..3] == "pop";
    }
  }

  lemma {:induction false} KeywordStemLast(k: nat)
    requires 7 <= k < |Keywords|
    ensures |Keywords[k].0| >= 3 && StemIndex(Keywords[k].0) == k
  {
    if k == 7 {
      assert Keywords[7].0 == "stash" && "stash"[..3] == "sta";
    } else if k == 8 {
      assert Keywords[8].0 == "restore" && "restore"[..3] == "res";
    } else if k == 9 {
      assert Keywords[9].0 == "and" && "and"[..3] == "and";
    } else if k == 10 {
      assert Keywords[10].0 == "buffer" && "buffer"[..3] == "buf";
    } else if k == 11 {
      assert Keywords[11].0 == "kill" && "kill"[..3] == "kil";
    } else if k == 12 {
      assert Keywords[12].0 == "read" && "read"[..3] == "rea";
    } else {
      assert Keywords[13].0 == "write" && "write"[..3] == "wri";
    }
  }

  /** No keyword starts another, so at most one test matches and the order of the tests is immaterial. */
  lemma {:induction false} ClassifyKeyword(w: string, k: nat)
    requires k < |Keywords| && Keywords[k].0 <= w
    ensures Classify(w) == Some(Keywords[k].1)
  {
    var j :| 0 <= j < |Keywords| && Keywords[j].0 <= w && Classify(w).value == Keywords[j].1;
    KeywordStem(j);
    KeywordStem(k);
    assert Keywords[j].0[..3] == w[..3] == Keywords[k].0[..3];
  }

  // ---------------------------------------------------------------- Program.__init__

  /** The text that decides the command: what follows the first `)`, when there is one. */
  function CommandText(code: string): string {
    if Contains(code, ")") then
      ContainsSplits(code, ")");
      Strip(Split(code, ")")[1])
    else code
  }

  /** The command a stripped, non-blank, non-header line stands for, if any keyword matches. */
  function Command(code: string): Option<Line> {
    match Classify(CommandText(code))
    case None => None
    case Some(kind) =>
      var halves := Separate(code);
      Some(Line(kind, halves.0, halves.1))
  }

  predicate Ignored(raw: string) {
    var code := Strip(raw);
    code == "" || code[0] == '#'
  }

  predicate Header(raw: string) {
    var code := Strip(raw);
    code != "" && code[0] != '#' && code[|code| - 1] == ':'
  }

  function HeaderName(raw: string): string
    requires Header(raw)
  {
    Strip(raw)[..|Strip(raw)| - 1]
  }

  /** The parse so far: the sub being filled, once a header has been seen, and the subs. */
  datatype Parser = Parser(current: Option<string>, subs: map<string, seq<Line>>)

  predicate Open(p: Parser) {
    p.current.Some? ==> p.current.value in p.subs
  }

  /** One source line; None where `Program.__init__` raises. */
  function ParseLine(p: Parser, raw: string): (r: Option<Parser>)
    requires Open(p)
    ensures r.Some? ==> Open(r.value)
  {
    if Ignored(raw) then Some(p)
    else if Header(raw) then
      var name := HeaderName(raw);
      Some(Parser(Some(name), p.subs[name := []]))
    else if p.current.None? then None
    else
      match Command(Strip(raw))
      case None => None
      case Some(line) =>
        var name := p.current.value;
        Some(p.(subs := p.subs[name := p.subs[name] + [line]]))
  }

  function Parsed(p: Parser, lines: seq<string>): (r: Option<Parser>)
    requires Open(p)
    ensures r.Some? ==> Open(r.value)
    decreases |lines|
  {
    if |lines| == 0 then Some(p)
    else
      match ParseLine(p, lines[0])
      case None => None
      case Some(q) => Parsed(q, lines[1..])
  }

  /** `Program(source).subs`, or None where the constructor raises. */
  function ProgramOf(source: string): Option<map<string, seq<Line>>> {
    match Parsed(Parser(None, map[]), Split(source, "\n"))
    case None => None
    case Some(p) => Some(p.subs)
  }

  /** The loop of `Program.__init__`. */
  method ParseProgram(source: string) returns (subs: Option<map<string, seq<Line>>>)
    ensures subs == ProgramOf(source)
  {
    var lines := Split(source, "\n");
    var current: Option<string> := None;
    var s: map<string, seq<Line>> := map[];
    for i := 0 to |lines|
      invariant Open(Parser(current, s))
      invariant Parsed(Parser(current, s), lines[i..]) == Parsed(Parser(None, map[]), lines)
    {
      assert lines[i..][1..] == lines[i + 1..];
      var code := Strip(lines[i]);
      if code == "" {
        continue;
      }
      if code[0] == '#' {
        continue;
      }
      if code[|code| - 1] == ':' {
        current := Some(code[..|code| - 1]);
        s := s[current.value := []];
        continue;
      }
      if current.None? {
        return None;
      }
      var withoutConditional := code;
      if Contains(withoutConditional, ")") {
        ContainsSplits(withoutConditional, ")");
        withoutConditional := Strip(Split(withoutConditional, ")")[1]);
      }
      var kind := Classify(withoutConditional);
      if kind.None? {
        return None;
      }
      var c, cond := Scan(code);
      s := s[current.value := s[current.value] + [Line(kind.value, c, cond)]];
    }
    assert lines[|lines|..] == [];
    subs := Some(s);
  }

  // ---------------------------------------------------------------- properties of the parse

  /** Parsing runs line by line: a concatenation parses as its first part, then its second. */
  lemma {:induction false} ParsedConcat(p: Parser, a: seq<string>, b: seq<string>)
    requires Open(p)
    ensures Parsed(p, a + b) == match Parsed(p, a) case None => None case Some(q) => Parsed(q, b)
    decreases |a|
  {
    if |a| == 0 {
      assert a + b == b;
    } else {
      assert (a + b)[0] == a[0];
      assert (a + b)[1..] == a[1..] + b;
      match ParseLine(p, a[0]) {
        case None =>
        case Some(q) => ParsedConcat(q, a[1..], b);
      }
    }
  }

  function Significant(lines: seq<string>): (r: seq<string>)
    ensures forall k :: 0 <= k < |r| ==> !Ignored(r[k])
  {
    if |lines| == 0 then []
    else if Ignored(lines[0]) then Significant(lines[1..])
    else [lines[0]] + Significant(lines[1..])
  }

  /** Blank lines and `#` comments make no difference to the parse. */
  lemma {:induction false} IgnoredLinesSkipped(p: Parser, lines: seq<string>)
    requires Open(p)
    ensures Parsed(p, lines) == Parsed(p, Significant(lines))
    decreases |lines|
  {
    if |lines| > 0 {
      if Ignored(lines[0]) {
        IgnoredLinesSkipped(p, lines[1..]);
      } else {
        var rest := Significant(lines[1..]);
        assert ([lines[0]] + rest)[0] == lines[0];
        assert ([lines[0]] + rest)[1..] == rest;
        match ParseLine(p, lines[0]) {
          case None =>
          case Some(q) => IgnoredLinesSkipped(q, lines[1..]);
        }
      }
    }
  }

  /** A command line after its header, in the parse of one sub. */
  predicate CommandLine(raw: string) {
    !Ignored(raw) && !Header(raw) && Command(Strip(raw)).Some?
  }

  function Commands(body: seq<string>): seq<Line>
    requires forall k :: 0 <= k < |body| ==> CommandLine(body[k])
  {
    seq(|body|, k requires 0 <= k < |body| && CommandLine(body[k]) => Command(Strip(body[k])).value)
  }

  lemma {:induction false} FillStep(p: Parser, raw: string)
    requires p.current.Some? && Open(p) && CommandLine(raw)
    ensures ParseLine(p, raw)
         == Some(p.(subs := p.subs[p.current.value := p.subs[p.current.value] + [Command(Strip(raw)).value]]))
  {
  }

  lemma {:induction false} FillHead(p: Parser, body: seq<string>)
    requires p.current.Some? && Open(p) && |body| > 0 && CommandLine(body[0])
    ensures Parsed(p, body)
         == Parsed(p.(subs := p.subs[p.current.value := p.subs[p.current.value] + [Command(Strip(body[0])).value]]), body[1..])
  {
    FillStep(p, body[0]);
  }

  lemma {:induction false} FillSub(p: Parser, body: seq<string>)
    requires p.current.Some? && Open(p)
    requires forall k :: 0 <= k < |body| ==> CommandLine(body[k])
    ensures Parsed(p, body) == Some(p.(subs := p.subs[p.current.value := p.subs[p.current.value] + Commands(body)]))
    decreases |body|
  {
    var name := p.current.value;
    if |body| == 0 {
      assert p.subs[name] + Commands(body) == p.subs[name];
      assert p.subs[name := p.subs[name]] == p.subs;
    } else {
      var line := Command(Strip(body[0])).value;
      var q := p.(subs := p.subs[name := p.subs[name] + [line]]);
      FillHead(p, body);
      var rest := body[1..];
      assert forall k :: 0 <= k < |rest| ==> rest[k] == body[k + 1];
      FillSub(q, rest);
      CommandsCons(body);
      AppendTwice(p.subs, name, line, Commands(rest));
    }
  }

  lemma {:induction false} CommandsCons(body: seq<string>)
    requires |body| > 0 && forall k :: 0 <= k < |body| ==> CommandLine(body[k])
    ensures Commands(body) == [Command(Strip(body[0])).value] + Commands(body[1..])
  {
  }

  lemma {:induction false} AppendTwice<K, V>(m: map<K, seq<V>>, k: K, v: V, vs: seq<V>)
    requires k in m
    ensures m[k := m[k] + [v]][k := m[k := m[k] + [v]][k] + vs] == m[k := m[k] + ([v] + vs)]
  {
    assert m[k] + [v] + vs == m[k] + ([v] + vs);
  }

  /** A header line followed by command lines defines the sub as those commands, in order. */
  lemma {:induction false} HeaderOpensSub(p: Parser, header: string, body: seq<string>)
    requires Open(p) && Header(header)
    requires forall k :: 0 <= k < |body| ==> CommandLine(body[k])
    ensures Parsed(p, [header] + body)
         == Some(Parser(Some(HeaderName(header)), p.subs[HeaderName(header) := Commands(body)]))
  {
    var name := HeaderName(header);
    var q := Parser(Some(name), p.subs[name := []]);
    assert ([header] + body)[0] == header;
    assert ([header] + body)[1..] == body;
    FillSub(q, body);
    assert [] + Commands(body) == Commands(body);
    assert q.subs[name := Commands(body)] == p.subs[name := Commands(body)];
  }

  /** A parse fails exactly at a line before any header or at a line no keyword matches. */
  lemma {:induction false} ParseLineFails(p: Parser, raw: string)
    requires Open(p)
    ensures ParseLine(p, raw).None?
        <==> !Ignored(raw) && !Header(raw) && (p.current.None? || Command(Strip(raw)).None?)
  {
  }

  /** A command before the first header makes the whole program fail. */
  lemma {:induction false} LineOutsideSub(pre: seq<string>, raw: string, post: seq<string>, subs: map<string, seq<Line>>)
    requires forall k :: 0 <= k < |pre| ==> Ignored(pre[k])
    requires !Ignored(raw) && !Header(raw)
    ensures Parsed(Parser(None, subs), pre + [raw] + post) == None
  {
    var p := Parser(None, subs);
    SkipIgnored(p, pre);
    ParsedConcat(p, pre, [raw] + post);
    assert pre + [raw] + post == pre + ([raw] + post);
    assert ([raw] + post)[0] == raw;
  }

  lemma {:induction false} SkipIgnored(p: Parser, pre: seq<string>)
    requires Open(p) && forall k :: 0 <= k < |pre| ==> Ignored(pre[k])
    ensures Parsed(p, pre) == Some(p)
    decreases |pre|
  {
    if |pre| > 0 {
      assert forall k :: 0 <= k < |pre[1..]| ==> pre[1..][k] == pre[k + 1];
      SkipIgnored(p, pre[1..]);
    }
  }

  /** A line that fails makes every program containing it at that point fail. */
  lemma {:induction false} FailureAborts(p: Parser, pre: seq<string>, raw: string, post: seq<string>)
    requires Open(p)
    requires Parsed(p, pre).Some? && ParseLine(Parsed(p, pre).value, raw).None?
    ensures Parsed(p, pre + [raw] + post) == None
  {
    ParsedConcat(p, pre, [raw] + post);
    assert pre + [raw] + post == pre + ([raw] + post);
    assert ([raw] + post)[0] == raw;
  }
}
