/**
 * The skeleton assembler (`Assembler` and `Pattern`): candidate programs are made by
 * splicing pattern templates into one another at `[next]` markers, renaming the jump
 * and local placeholders of each spliced template apart, numbering the `[o]` outputs
 * and closing the leftover markers with `[ret]`.
 */
module ColdAssembler {
  import opened Wrappers
  import opened Text
  import ColdProduct

  /** `Pattern(code).template`: the stripped code followed by a newline. */
  function Template(code: string): string {
    Strip(code) + "\n"
  }

  predicate NoBrackets(s: string) {
    forall k :: 0 <= k < |s| ==> s[k] != '[' && s[k] != ']'
  }

  // ---------------------------------------------------------------- fresh names

  /** The fresh-name search tries `range(100000)`. */
  const Tries: nat := 100000

  /** `tag + str(k)`, such as `j3` or `l0`. */
  function Name(tag: char, k: nat): string {
    [tag] + NatToString(k)
  }

  /** The search from `k` on: the first name not in `used`, or the last one tried. */
  function FreeFrom(tag: char, used: set<string>, k: nat): (name: string)
    requires k < Tries
    ensures exists j ::
              && k <= j < Tries && name == Name(tag, j)
              && (forall m :: k <= m < j ==> Name(tag, m) in used)
              && (j < Tries - 1 ==> name !in used)
    decreases Tries - k
  {
    if k == Tries - 1 || Name(tag, k) !in used then Name(tag, k) else FreeFrom(tag, used, k + 1)
  }

  /** The least `tag<k>` not already used, or `tag99999` when every one tried is taken. */
  function Fresh(tag: char, used: set<string>): string {
    FreeFrom(tag, used, 0)
  }

  /**
   * The `for j in range(100000)` loop of `process_jumps` / `process_locals`. Whether a
   * name is taken is the inner loop over the dictionary's values.
   */
  method FreshName(tag: char, names: map<string, string>) returns (name: string)
    ensures name == Fresh(tag, names.Values)
  {
    var j := 0;
    name := Name(tag, 0);
    while true
      invariant 0 <= j < Tries && name == Name(tag, j)
      invariant FreeFrom(tag, names.Values, j) == Fresh(tag, names.Values)
      decreases Tries - j
    {
      var found := name in names.Values;
      if !found || j == Tries - 1 {
        return;
      }
      j := j + 1;
      name := Name(tag, j);
    }
  }

  // ---------------------------------------------------------------- renaming

  /**
   * The variables of the renaming loop: the output so far, whether the scan is inside
   * brackets, the placeholder being collected, the names given in this call, and the
   * shared dictionary of names given so far.
   */
  datatype Scanner = Scanner(out: string, inBrackets: bool, param: string,
                             local: map<string, string>, names: map<string, string>)

  /** One character of the renaming loop; `None` is the IndexError of `param[0]` on `[]`. */
  function RenameChar(tag: char, s: Scanner, c: char): Option<Scanner> {
    if c == '[' then Some(s.(inBrackets := true))
    else if c == ']' then
      if |s.param| == 0 then None
      else if s.param[0] != tag then
        Some(Scanner(s.out + "[" + s.param + "]", false, "", s.local, s.names))
      else if s.param in s.local then
        Some(Scanner(s.out + s.local[s.param], false, "", s.local, s.names))
      else
        var n := Fresh(tag, s.names.Values);
        Some(Scanner(s.out + n, false, "", s.local[s.param := n], s.names[n := n]))
    else if s.inBrackets then Some(s.(param := s.param + [c]))
    else Some(s.(out := s.out + [c]))
  }

  function RenameFrom(tag: char, s: Scanner, cs: string): Option<Scanner>
    decreases |cs|
  {
    if |cs| == 0 then Some(s)
    else match RenameChar(tag, s, cs[0])
      case None => None
      case Some(t) => RenameFrom(tag, t, cs[1..])
  }

  /** The renamed text and the updated shared dictionary. */
  function Rename(tag: char, pattern: string, names: map<string, string>)
    : Option<(string, map<string, string>)>
  {
    match RenameFrom(tag, Scanner("", false, "", map[], names), pattern)
    case None => None
    case Some(s) => Some((s.out, s.names))
  }

  /**
   * `process_jumps` (tag `j`) and `process_locals` (tag `l`): the two are the same loop
   * over different placeholder letters and dictionaries.
   */
  method ProcessNames(tag: char, pattern: string, names: map<string, string>)
    returns (r: Option<(string, map<string, string>)>)
    ensures r == Rename(tag, pattern, names)
  {
    var template, inBrackets, param, local, shared := "", false, "", map[], names;
    var i := 0;
    while i < |pattern|
      invariant 0 <= i <= |pattern|
      invariant RenameFrom(tag, Scanner(template, inBrackets, param, local, shared), pattern[i..])
             == RenameFrom(tag, Scanner("", false, "", map[], names), pattern)
    {
      var c := pattern[i];
      assert pattern[i..][1..] == pattern[i + 1..];
      i := i + 1;
      if c == '[' {
        inBrackets := true;
        continue;
      }
      if c == ']' {
        if |param| == 0 {
          return None;
        }
        if param[0] == tag {
          if param !in local {
            var given := FreshName(tag, shared);
            local := local[param := given];
            shared := shared[given := given];
          }
          template := template + local[param];
        } else {
          template := template + "[" + param + "]";
        }
        param := "";
        inBrackets := false;
        continue;
      }
      if inBrackets {
        param := param + [c];
      } else {
        template := template + [c];
      }
    }
    assert pattern[i..] == [];
    return Some((template, shared));
  }

  method ProcessJumps(pattern: string, jumps: map<string, string>)
    returns (r: Option<(string, map<string, string>)>)
    ensures r == Rename('j', pattern, jumps)
  {
    r := ProcessNames('j', pattern, jumps);
  }

  method ProcessLocals(pattern: string, locals: map<string, string>)
    returns (r: Option<(string, map<string, string>)>)
    ensures r == Rename('l', pattern, locals)
  {
    r := ProcessNames('l', pattern, locals);
  }

  // ---------------------------------------------------------------- renaming, by pieces

  /** A pattern read as text runs and bracketed placeholders. */
  datatype Piece = Chars(s: string) | Slot(param: string)

  predicate WellFormed(ps: seq<Piece>) {
    forall k :: 0 <= k < |ps| ==>
      match ps[k]
      case Chars(s) => NoBrackets(s)
      case Slot(p) => |p| > 0 && NoBrackets(p)
  }

  function Render(ps: seq<Piece>): string {
    if |ps| == 0 then ""
    else
      (match ps[0] case Chars(s) => s case Slot(p) => "[" + p + "]") + Render(ps[1..])
  }

  /**
   * What renaming does, piece by piece: text is kept, a placeholder of another letter is
   * kept, and a placeholder of the renamed letter gets the name already given to it in
   * this call, or else a fresh one that is then recorded both locally and in the shared
   * dictionary.
   */
  function Rewrite(tag: char, ps: seq<Piece>, local: map<string, string>, names: map<string, string>)
    : (string, map<string, string>, map<string, string>)
    requires WellFormed(ps)
  {
    if |ps| == 0 then ("", local, names)
    else
      var h := RewritePiece(tag, ps[0], local, names);
      var r := Rewrite(tag, ps[1..], h.1, h.2);
      (h.0 + r.0, r.1, r.2)
  }

  function RewritePiece(tag: char, pc: Piece, local: map<string, string>, names: map<string, string>)
    : (string, map<string, string>, map<string, string>)
    requires pc.Slot? ==> |pc.param| > 0
  {
    match pc
    case Chars(s) => (s, local, names)
    case Slot(p) =>
      if p[0] != tag then ("[" + p + "]", local, names)
      else if p in local then (local[p], local, names)
      else var n := Fresh(tag, names.Values); (n, local[p := n], names[n := n])
  }

  lemma {:induction false} RenameChars(tag: char, s: Scanner, text: string, rest: string, inside: bool)
    requires NoBrackets(text) && s.inBrackets == inside
    ensures RenameFrom(tag, s, text + rest)
         == RenameFrom(tag, if inside then s.(param := s.param + text) else s.(out := s.out + text), rest)
    decreases |text|
  {
    if |text| == 0 {
      assert text + rest == rest;
      assert s.param + text == s.param && s.out + text == s.out;
    } else {
      var c := text[0];
      assert (text + rest)[0] == c;
      assert (text + rest)[1..] == text[1..] + rest;
      var t := if inside then s.(param := s.param + [c]) else s.(out := s.out + [c]);
      assert RenameChar(tag, s, c) == Some(t);
      RenameChars(tag, t, text[1..], rest, inside);
      assert s.param + [c] + text[1..] == s.param + text;
      assert s.out + [c] + text[1..] == s.out + text;
    }
  }

  /** Renaming the text of one placeholder `[p]`. */
  lemma {:induction false} RenameSlot(tag: char, s: Scanner, p: string, rest: string)
    requires |p| > 0 && NoBrackets(p) && !s.inBrackets && s.param == ""
    ensures RenameFrom(tag, s, "[" + p + "]" + rest)
         == RenameFrom(tag, RenameChar(tag, s.(inBrackets := true, param := p), ']').value, rest)
  {
    var t := s.(inBrackets := true);
    assert ("[" + p + "]" + rest)[1..] == p + ("]" + rest);
    assert RenameChar(tag, s, '[') == Some(t);
    RenameChars(tag, t, p, "]" + rest, true);
    assert "" + p == p;
    assert ("]" + rest)[1..] == rest;
  }

  /** Scanning a well-formed pattern does exactly what `Rewrite` says. */
  lemma {:induction false} RenameRendered(tag: char, ps: seq<Piece>, s: Scanner, rest: string)
    requires WellFormed(ps) && !s.inBrackets && s.param == ""
    ensures var w := Rewrite(tag, ps, s.local, s.names);
      RenameFrom(tag, s, Render(ps) + rest) == RenameFrom(tag, Scanner(s.out + w.0, false, "", w.1, w.2), rest)
    decreases |ps|
  {
    if |ps| == 0 {
      assert Render(ps) + rest == rest;
      assert s.out + "" == s.out;
    } else {
      assert WellFormed(ps[1..]) by {
        assert forall k :: 0 <= k < |ps[1..]| ==> ps[1..][k] == ps[k + 1];
      }
      var h := RewritePiece(tag, ps[0], s.local, s.names);
      var t := Scanner(s.out + h.0, false, "", h.1, h.2);
      RenameHead(tag, ps, s, rest);
      var r := Rewrite(tag, ps[1..], h.1, h.2);
      RenameRendered(tag, ps[1..], t, rest);
      assert t.out + r.0 == s.out + (h.0 + r.0);
    }
  }

  /** Renaming over the first piece of a rendered pattern emits that piece's rewriting. */
  lemma {:induction false} RenameHead(tag: char, ps: seq<Piece>, s: Scanner, rest: string)
    requires WellFormed(ps) && |ps| > 0 && !s.inBrackets && s.param == ""
    ensures var h := RewritePiece(tag, ps[0], s.local, s.names);
      RenameFrom(tag, s, Render(ps) + rest)
        == RenameFrom(tag, Scanner(s.out + h.0, false, "", h.1, h.2), Render(ps[1..]) + rest)
  {
    var h := RewritePiece(tag, ps[0], s.local, s.names);
    var t := Scanner(s.out + h.0, false, "", h.1, h.2);
    match ps[0] {
      case Chars(text) =>
        assert Render(ps) + rest == text + (Render(ps[1..]) + rest);
        RenameChars(tag, s, text, Render(ps[1..]) + rest, false);
      case Slot(p) =>
        assert Render(ps) + rest == "[" + p + "]" + (Render(ps[1..]) + rest);
        RenameSlot(tag, s, p, Render(ps[1..]) + rest);
        assert s.out + "[" + p + "]" == s.out + ("[" + p + "]");
        assert RenameChar(tag, s.(inBrackets := true, param := p), ']') == Some(t);
    }
  }

  /** A well-formed pattern with no placeholder of the renamed letter comes back unchanged. */
  lemma {:induction false} RewriteUntagged(tag: char, ps: seq<Piece>, local: map<string, string>, names: map<string, string>)
    requires WellFormed(ps)
    requires forall k :: 0 <= k < |ps| && ps[k].Slot? ==> ps[k].param[0] != tag
    ensures Rewrite(tag, ps, local, names) == (Render(ps), local, names)
    decreases |ps|
  {
    if |ps| > 0 {
      assert WellFormed(ps[1..]) by {
        assert forall k :: 0 <= k < |ps[1..]| ==> ps[1..][k] == ps[k + 1];
      }
      RewriteUntagged(tag, ps[1..], local, names);
    }
  }

  /**
   * Every name given by renaming is recorded: each placeholder of the renamed letter ends
   * up in the local table, which only grows, every name in it is recorded under itself in
   * the shared dictionary, and the dictionary loses no entry.
   */
  lemma {:induction false} RewriteRecords(tag: char, ps: seq<Piece>, local: map<string, string>, names: map<string, string>)
    requires WellFormed(ps)
    requires forall p :: p in local ==> local[p] in names && names[local[p]] == local[p]
    ensures var w := Rewrite(tag, ps, local, names);
      && (forall p :: p in local ==> p in w.1 && w.1[p] == local[p])
      && (forall k :: 0 <= k < |ps| && ps[k].Slot? && ps[k].param[0] == tag ==> ps[k].param in w.1)
      && (forall n :: n in names ==> n in w.2)
      && (forall p :: p in w.1 ==> w.1[p] in w.2 && w.2[w.1[p]] == w.1[p])
    decreases |ps|
  {
    if |ps| > 0 {
      assert WellFormed(ps[1..]) by {
        assert forall k :: 0 <= k < |ps[1..]| ==> ps[1..][k] == ps[k + 1];
      }
      var h := RewritePiece(tag, ps[0], local, names);
      PieceRecords(tag, ps[0], local, names);
      RewriteRecords(tag, ps[1..], h.1, h.2);
      var w := Rewrite(tag, ps, local, names);
      assert w.1 == Rewrite(tag, ps[1..], h.1, h.2).1 && w.2 == Rewrite(tag, ps[1..], h.1, h.2).2;
      forall k | 0 <= k < |ps| && ps[k].Slot? && ps[k].param[0] == tag
        ensures ps[k].param in w.1
      {
        if k > 0 {
          assert ps[k] == ps[1..][k - 1];
        }
      }
    }
  }

  /** One piece rewritten keeps the tables' promises of `RewriteRecords`. */
  lemma PieceRecords(tag: char, pc: Piece, local: map<string, string>, names: map<string, string>)
    requires pc.Slot? ==> |pc.param| > 0
    requires forall p :: p in local ==> local[p] in names && names[local[p]] == local[p]
    ensures var h := RewritePiece(tag, pc, local, names);
      && (forall p :: p in local ==> p in h.1 && h.1[p] == local[p])
      && (pc.Slot? && pc.param[0] == tag ==> pc.param in h.1)
      && (forall n :: n in names ==> n in h.2)
      && (forall p :: p in h.1 ==> h.1[p] in h.2 && h.2[h.1[p]] == h.1[p])
  {
  }

  // ---------------------------------------------------------------- structure

  /** `process_locals(process_jumps(template, jumps), locals)`. */
  function Prepare(template: string, jumps: map<string, string>, locals: map<string, string>)
    : Option<(string, map<string, string>, map<string, string>)>
  {
    match Rename('j', template, jumps)
    case None => None
    case Some(rj) =>
      match Rename('l', rj.0, locals)
      case None => None
      case Some(rl) => Some((rl.0, rj.1, rl.1))
  }

  method PrepareTemplate(template: string, jumps: map<string, string>, locals: map<string, string>)
    returns (r: Option<(string, map<string, string>, map<string, string>)>)
    ensures r == Prepare(template, jumps, locals)
  {
    var rj := ProcessJumps(template, jumps);
    if rj.None? {
      return None;
    }
    var rl := ProcessLocals(rj.value.0, locals);
    if rl.None? {
      return None;
    }
    r := Some((rl.value.0, rj.value.1, rl.value.1));
  }

  /** Every pattern index is in range. */
  predicate Indices(templates: seq<string>, list: seq<nat>) {
    forall k :: 0 <= k < |list| ==> list[k] < |templates|
  }

  /**
   * The variables of one pass of `structure`: the new assembly so far, the bracket state,
   * the pattern indices not yet spliced, and the two shared dictionaries.
   */
  datatype Splicer = Splicer(out: string, inBracket: bool, param: string, rest: seq<nat>,
                             jumps: map<string, string>, locals: map<string, string>)

  /** One character of a pass: a `[next]` takes the next pattern, or stays when none is left. */
  function SpliceChar(templates: seq<string>, s: Splicer, c: char): (r: Option<Splicer>)
    requires Indices(templates, s.rest)
    ensures r.Some? ==> r.value.rest == s.rest || (|s.rest| > 0 && r.value.rest == s.rest[1..])
  {
    if c == '[' then Some(s.(inBracket := true))
    else if c == ']' then
      if s.param == "next" then
        if |s.rest| > 0 then
          match Prepare(templates[s.rest[0]], s.jumps, s.locals)
          case None => None
          case Some(p) => Some(Splicer(s.out + p.0, false, "", s.rest[1..], p.1, p.2))
        else Some(Splicer(s.out + "[next]", false, "", s.rest, s.jumps, s.locals))
      else Some(Splicer(s.out + "[" + s.param + "]", false, "", s.rest, s.jumps, s.locals))
    else if s.inBracket then Some(s.(param := s.param + [c]))
    else Some(s.(out := s.out + [c]))
  }

  function SpliceFrom(templates: seq<string>, s: Splicer, cs: string): (r: Option<Splicer>)
    requires Indices(templates, s.rest)
    ensures r.Some? ==> |r.value.rest| <= |s.rest| && r.value.rest == s.rest[|s.rest| - |r.value.rest|..]
    decreases |cs|
  {
    if |cs| == 0 then Some(s)
    else match SpliceChar(templates, s, cs[0])
      case None => None
      case Some(t) =>
        assert Indices(templates, t.rest) by {
          if t.rest != s.rest {
            assert forall k :: 0 <= k < |t.rest| ==> t.rest[k] == s.rest[k + 1];
          }
        }
        var r := SpliceFrom(templates, t, cs[1..]);
        assert r.Some? ==> r.value.rest == s.rest[|s.rest| - |r.value.rest|..] by {
          if r.Some? && t.rest != s.rest {
            assert t.rest[|t.rest| - |r.value.rest|..] == s.rest[|s.rest| - |r.value.rest|..];
          }
        }
        r
  }

  /**
   * `structure`: with no assembly yet, the first pattern is taken and prepared; then each
   * pass splices the following patterns into the `[next]` markers, and passes repeat while
   * patterns remain and the new assembly still holds a `[next]`.
   */
  function Structured(templates: seq<string>, assembly: Option<string>, list: seq<nat>,
                      jumps: map<string, string>, locals: map<string, string>): Option<string>
    requires Indices(templates, list)
    decreases |list|, if assembly.None? then 1 else 0
  {
    if assembly.None? then
      if |list| == 0 then None
      else
        match Prepare(templates[list[0]], jumps, locals)
        case None => None
        case Some(p) => Structured(templates, Some(p.0), list[1..], p.1, p.2)
    else
      var init := Splicer("", false, "", list, jumps, locals);
      match SpliceFrom(templates, init, assembly.value)
      case None => None
      case Some(s) =>
        if |s.rest| == 0 || !Contains(s.out, "[next]") then Some(s.out)
        else
          NoMarkerInEmpty();
          SpliceClean(templates, init, assembly.value);
          Structured(templates, Some(s.out), s.rest, s.jumps, s.locals)
  }

  lemma {:induction false} NoMarkerInEmpty()
    ensures !Contains("", "[next]")
  {
    assert !("[next]" <= ""[0..]);
  }

  /** A character other than `]` cannot complete a `[next]`. */
  lemma {:induction false} NoMarkerChar(a: string, c: char)
    requires !Contains(a, "[next]") && c != ']'
    ensures !Contains(a + [c], "[next]")
  {
    var t := a + [c];
    forall i | 0 <= i < |t| + 1 && i <= |t|
      ensures !("[next]" <= t[i..])
    {
      if i + 6 <= |a| {
        assert t[i..][..6] == a[i..][..6];
        assert !("[next]" <= a[i..]);
      } else if i + 6 == |t| {
        assert t[i..][5] == c;
      }
    }
  }

  /** A placeholder other than `[next]` cannot complete a `[next]`. */
  lemma {:induction false} NoMarkerSlot(a: string, p: string)
    requires !Contains(a, "[next]") && NoBrackets(p) && p != "next"
    ensures !Contains(a + "[" + p + "]", "[next]")
  {
    var b := "[" + p + "]";
    var t := a + b;
    assert t == a + "[" + p + "]";
    forall i | 0 <= i < |t| + 1 && i <= |t|
      ensures !("[next]" <= t[i..])
    {
      if i + 6 <= |a| {
        assert t[i..][..6] == a[i..][..6];
        assert !("[next]" <= a[i..]);
      } else if i < |a| {
        if i + 6 <= |t| {
          assert t[i..][|a| - i] == '[';
        }
      } else if i == |a| {
        assert t[i..] == b;
        if |p| == 4 {
          assert b[1..5] == p;
          assert "[next]"[1..5] == "next";
        } else if |p| > 4 {
          assert b[5] == p[4];
        }
      } else if i < |t| {
        assert t[i..][0] == t[i];
        assert t[i] == if i == |t| - 1 then ']' else p[i - |a| - 1];
      }
    }
  }

  /**
   * A pass that takes no pattern while some remain leaves no `[next]`: every marker it
   * meets takes a pattern. So a repeated pass always takes one, and `structure` stops.
   */
  lemma {:induction false} SpliceClean(templates: seq<string>, s: Splicer, cs: string)
    requires Indices(templates, s.rest) && |s.rest| > 0
    requires !Contains(s.out, "[next]") && NoBrackets(s.param)
    ensures var r := SpliceFrom(templates, s, cs);
      r.Some? && |r.value.rest| == |s.rest| ==> !Contains(r.value.out, "[next]")
    decreases |cs|
  {
    if |cs| > 0 {
      var c := cs[0];
      var step := SpliceChar(templates, s, c);
      if step.Some? && step.value.rest == s.rest {
        var t := step.value;
        if c == '[' {
        } else if c == ']' {
          assert s.param != "next";
          NoMarkerSlot(s.out, s.param);
        } else if s.inBracket {
          assert NoBrackets(s.param + [c]) by {
            assert forall k :: 0 <= k < |s.param| ==> (s.param + [c])[k] == s.param[k];
          }
        } else {
          NoMarkerChar(s.out, c);
        }
        SpliceClean(templates, t, cs[1..]);
      }
    }
  }

  /** One pass of `structure`'s character loop. */
  method SplicePass(templates: seq<string>, assembly: string, list: seq<nat>,
                    jumps: map<string, string>, locals: map<string, string>)
    returns (r: Option<Splicer>)
    requires Indices(templates, list)
    ensures r == SpliceFrom(templates, Splicer("", false, "", list, jumps, locals), assembly)
  {
    var newAssembly, inBracket, param, rest, js, ls := "", false, "", list, jumps, locals;
    var i := 0;
    while i < |assembly|
      invariant 0 <= i <= |assembly|
      invariant Indices(templates, rest)
      invariant SpliceFrom(templates, Splicer(newAssembly, inBracket, param, rest, js, ls), assembly[i..])
             == SpliceFrom(templates, Splicer("", false, "", list, jumps, locals), assembly)
    {
      var c := assembly[i];
      assert assembly[i..][1..] == assembly[i + 1..];
      i := i + 1;
      if c == '[' {
        inBracket := true;
        continue;
      }
      if c == ']' {
        if param == "next" {
          if |rest| > 0 {
            var index := rest[0];
            rest := rest[1..];
            var p := PrepareTemplate(templates[index], js, ls);
            if p.None? {
              return None;
            }
            newAssembly := newAssembly + p.value.0;
            js, ls := p.value.1, p.value.2;
          } else {
            newAssembly := newAssembly + "[next]";
          }
        } else {
          newAssembly := newAssembly + "[" + param + "]";
        }
        inBracket := false;
        param := "";
        continue;
      }
      if inBracket {
        param := param + [c];
      } else {
        newAssembly := newAssembly + [c];
      }
    }
    assert assembly[i..] == [];
    return Some(Splicer(newAssembly, inBracket, param, rest, js, ls));
  }

  /** `Assembler.structure`, popping `pattern_list` as it goes. */
  method Structure(templates: seq<string>, assembly: Option<string>, list: seq<nat>,
                   jumps: map<string, string>, locals: map<string, string>)
    returns (r: Option<string>)
    requires Indices(templates, list)
    ensures r == Structured(templates, assembly, list, jumps, locals)
    decreases |list|, if assembly.None? then 1 else 0
  {
    var text, rest, js, ls := "", list, jumps, locals;
    if assembly.None? {
      if |list| == 0 {
        return None;
      }
      var p := PrepareTemplate(templates[list[0]], jumps, locals);
      if p.None? {
        return None;
      }
      text, rest, js, ls := p.value.0, list[1..], p.value.1, p.value.2;
    } else {
      text := assembly.value;
    }
    var s := SplicePass(templates, text, rest, js, ls);
    if s.None? {
      return None;
    }
    if |s.value.rest| == 0 || !Contains(s.value.out, "[next]") {
      return Some(s.value.out);
    }
    NoMarkerInEmpty();
    SpliceClean(templates, Splicer("", false, "", rest, js, ls), text);
    r := Structure(templates, Some(s.value.out), s.value.rest, s.value.jumps, s.value.locals);
  }

  // ---------------------------------------------------------------- outs

  /** The variables of `outs`' character loop over one line. */
  datatype Numberer = Numberer(line: string, inBracket: bool, param: string, next: nat)

  function NumberChar(s: Numberer, c: char): Numberer {
    if c == '[' then s.(inBracket := true)
    else if c == ']' then
      if s.param == "o" then Numberer(s.line + "o" + NatToString(s.next), false, "", s.next + 1)
      else Numberer(s.line + "[" + s.param + "]", false, "", s.next)
    else if s.inBracket then s.(param := s.param + [c])
    else s.(line := s.line + [c])
  }

  function NumberFrom(s: Numberer, cs: string): Numberer
    decreases |cs|
  {
    if |cs| == 0 then s else NumberFrom(NumberChar(s, cs[0]), cs[1..])
  }

  /** Each line is scanned afresh; the output counter runs on across lines. */
  function NumberLines(lines: seq<string>, next: nat): (r: (seq<string>, nat))
    ensures |r.0| == |lines|
  {
    if |lines| == 0 then ([], next)
    else
      var s := NumberFrom(Numberer("", false, "", next), lines[0]);
      var rest := NumberLines(lines[1..], s.next);
      ([s.line] + rest.0, rest.1)
  }

  function Numbered(assembly: string): string {
    Join(NumberLines(Split(assembly, "\n"), 0).0, "\n")
  }

  /**
   * What numbering does, piece by piece: an `[o]` placeholder becomes `o` followed by the
   * running counter, which then moves on; text and other placeholders are kept.
   */
  function NumberPieces(ps: seq<Piece>, next: nat): (r: (string, nat))
  {
    if |ps| == 0 then ("", next)
    else
      var h := PieceNumber(ps[0], next);
      var t := NumberPieces(ps[1..], h.1);
      (h.0 + t.0, t.1)
  }

  /** One piece numbered: text is kept, `[o]` becomes `o` and the next number. */
  function PieceNumber(x: Piece, next: nat): (string, nat) {
    match x
    case Chars(s) => (s, next)
    case Slot(p) => if p == "o" then ("o" + NatToString(next), next + 1) else ("[" + p + "]", next)
  }

  /** Outside brackets, text is copied to the line. */
  lemma {:induction false} NumberText(s: Numberer, text: string, rest: string)
    requires NoBrackets(text) && !s.inBracket
    ensures NumberFrom(s, text + rest) == NumberFrom(s.(line := s.line + text), rest)
    decreases |text|
  {
    if |text| == 0 {
      assert text + rest == rest;
      assert s.line + text == s.line;
    } else {
      var c := text[0];
      assert (text + rest)[0] == c;
      assert (text + rest)[1..] == text[1..] + rest;
      NumberText(s.(line := s.line + [c]), text[1..], rest);
      assert s.line + [c] + text[1..] == s.line + text;
    }
  }

  /** Inside brackets, text joins the parameter. */
  lemma {:induction false} NumberParam(s: Numberer, text: string, rest: string)
    requires NoBrackets(text) && s.inBracket
    ensures NumberFrom(s, text + rest) == NumberFrom(s.(param := s.param + text), rest)
    decreases |text|
  {
    if |text| == 0 {
      assert text + rest == rest;
      assert s.param + text == s.param;
    } else {
      var c := text[0];
      assert (text + rest)[0] == c;
      assert (text + rest)[1..] == text[1..] + rest;
      NumberParam(s.(param := s.param + [c]), text[1..], rest);
      assert s.param + [c] + text[1..] == s.param + text;
    }
  }

  lemma {:induction false} NumberSlot(s: Numberer, p: string, rest: string)
    requires |p| > 0 && NoBrackets(p) && !s.inBracket && s.param == ""
    ensures NumberFrom(s, "[" + p + "]" + rest)
         == NumberFrom(NumberChar(s.(inBracket := true, param := p), ']'), rest)
  {
    var m := "[" + p + "]" + rest;
    assert m[0] == '[';
    assert m[1..] == p + ("]" + rest);
    NumberParam(s.(inBracket := true), p, "]" + rest);
    assert "" + p == p;
    assert ("]" + rest)[0] == ']';
    assert ("]" + rest)[1..] == rest;
  }

  /** The scanner of `outs` over rendered pieces numbers them as the piece-level reference says. */
  lemma {:induction false} NumberRendered(ps: seq<Piece>, s: Numberer, rest: string)
    requires WellFormed(ps) && !s.inBracket && s.param == ""
    ensures var w := NumberPieces(ps, s.next);
      NumberFrom(s, Render(ps) + rest) == NumberFrom(Numberer(s.line + w.0, false, "", w.1), rest)
    decreases |ps|
  {
    if |ps| == 0 {
      assert Render(ps) + rest == rest;
      assert s.line + "" == s.line;
    } else {
      var h := PieceNumber(ps[0], s.next);
      var s1 := Numberer(s.line + h.0, false, "", h.1);
      NumberHead(ps, s, rest);
      NumberRendered(ps[1..], s1, rest);
      assert s1.line + NumberPieces(ps[1..], h.1).0 == s.line + NumberPieces(ps, s.next).0;
    }
  }

  /** The scanner passes the first piece just as `PieceNumber` says. */
  lemma {:induction false} NumberHead(ps: seq<Piece>, s: Numberer, rest: string)
    requires WellFormed(ps) && |ps| > 0 && !s.inBracket && s.param == ""
    ensures WellFormed(ps[1..])
    ensures var h := PieceNumber(ps[0], s.next);
      NumberFrom(s, Render(ps) + rest) == NumberFrom(Numberer(s.line + h.0, false, "", h.1), Render(ps[1..]) + rest)
  {
    assert WellFormed(ps[1..]) by {
      assert forall k :: 0 <= k < |ps[1..]| ==> ps[1..][k] == ps[k + 1];
    }
    var tail := Render(ps[1..]);
    match ps[0] {
      case Chars(t) =>
        assert Render(ps) + rest == t + (tail + rest);
        NumberText(s, t, tail + rest);
      case Slot(p) =>
        assert Render(ps) + rest == "[" + p + "]" + (tail + rest);
        NumberSlot(s, p, tail + rest);
        var h := PieceNumber(ps[0], s.next);
        assert NumberChar(s.(inBracket := true, param := p), ']') == Numberer(s.line + h.0, false, "", h.1);
    }
  }

  /** Numbering a character other than brackets, `o` and digits never produces it. */
  lemma {:induction false} NumberAvoids(s: Numberer, cs: string, c: char)
    requires c != '[' && c != ']' && c != 'o' && !IsDigit(c)
    requires Avoids(s.line, c) && Avoids(s.param, c) && Avoids(cs, c)
    ensures Avoids(NumberFrom(s, cs).line, c)
    decreases |cs|
  {
    if |cs| > 0 {
      var t := NumberChar(s, cs[0]);
      assert Avoids(t.line, c) && Avoids(t.param, c) by {
        if cs[0] == ']' && s.param == "o" {
          var d := NatToString(s.next);
          assert forall k :: 0 <= k < |d| ==> IsDigit(d[k]);
          assert forall k :: 0 <= k < |s.line + "o" + d| ==>
            (s.line + "o" + d)[k] == if k < |s.line| then s.line[k] else if k == |s.line| then 'o' else d[k - |s.line| - 1];
        } else if cs[0] == ']' {
          assert forall k :: 0 <= k < |s.line + "[" + s.param + "]"| ==>
            (s.line + "[" + s.param + "]")[k] == if k < |s.line| then s.line[k] else if k == |s.line| then '['
              else if k <= |s.line| + |s.param| then s.param[k - |s.line| - 1] else ']';
        }
      }
      NumberAvoids(t, cs[1..], c);
    }
  }

  /** `outs` keeps the lines: numbering never introduces or removes a line break. */
  lemma {:induction false} OutsKeepsLines(assembly: string)
    ensures |Split(Numbered(assembly), "\n")| == |Split(assembly, "\n")|
  {
    var lines := Split(assembly, "\n");
    var r := NumberLines(lines, 0).0;
    SplitPartsAvoid(assembly, '\n', "");
    NumberLinesAvoid(lines, 0);
    assert "\n" == ['\n'];
    SplitJoinChar(r, '\n');
  }

  lemma {:induction false} NumberLinesAvoid(lines: seq<string>, next: nat)
    requires forall k :: 0 <= k < |lines| ==> Avoids(lines[k], '\n')
    ensures forall k :: 0 <= k < |lines| ==> Avoids(NumberLines(lines, next).0[k], '\n')
    decreases |lines|
  {
    if |lines| > 0 {
      var s := NumberFrom(Numberer("", false, "", next), lines[0]);
      NumberAvoids(Numberer("", false, "", next), lines[0], '\n');
      NumberLinesAvoid(lines[1..], s.next);
      var r := NumberLines(lines, next).0;
      assert r == [s.line] + NumberLines(lines[1..], s.next).0;
    }
  }

  /** The character loop of `outs` over one line. */
  method NumberLine(origLine: string, next: nat) returns (line: string, after: nat)
    ensures var s := NumberFrom(Numberer("", false, "", next), origLine);
      line == s.line && after == s.next
  {
    var inBracket, param := false, "";
    line, after := "", next;
    var i := 0;
    while i < |origLine|
      invariant 0 <= i <= |origLine|
      invariant NumberFrom(Numberer(line, inBracket, param, after), origLine[i..])
             == NumberFrom(Numberer("", false, "", next), origLine)
    {
      var c := origLine[i];
      assert origLine[i..][1..] == origLine[i + 1..];
      i := i + 1;
      if c == '[' {
        inBracket := true;
        continue;
      }
      if c == ']' {
        if param == "o" {
          line := line + "o" + NatToString(after);
          after := after + 1;
        } else {
          line := line + "[" + param + "]";
        }
        param := "";
        inBracket := false;
        continue;
      }
      if inBracket {
        param := param + [c];
      } else {
        line := line + [c];
      }
    }
    assert origLine[i..] == [];
  }

  /** `Assembler.outs`. */
  method Outs(assembly: string) returns (r: string)
    ensures r == Numbered(assembly)
  {
    var lines := Split(assembly, "\n");
    var newLines: seq<string> := [];
    var lastOutputIndex := 0;
    var k := 0;
    while k < |lines|
      invariant 0 <= k <= |lines|
      invariant newLines + NumberLines(lines[k..], lastOutputIndex).0 == NumberLines(lines, 0).0
    {
      assert lines[k..][1..] == lines[k + 1..];
      var line, after := NumberLine(lines[k], lastOutputIndex);
      assert newLines + [line] + NumberLines(lines[k + 1..], after).0
          == newLines + NumberLines(lines[k..], lastOutputIndex).0;
      newLines := newLines + [line];
      lastOutputIndex := after;
      k := k + 1;
    }
    assert newLines + [] == newLines;
    r := Join(newLines, "\n");
  }

  // ---------------------------------------------------------------- finish

  /** The parts after the `[ret]` insertions: `[ret]` between every two of them. */
  function Weave(parts: seq<string>): seq<string> {
    if |parts| <= 1 then parts else Weave(parts[..|parts| - 1]) + ["[ret]", parts[|parts| - 1]]
  }

  lemma {:induction false} JoinSnoc(xs: seq<string>, y: string, sep: string)
    requires |xs| >= 1
    ensures Join(xs + [y], sep) == Join(xs, sep) + sep + y
  {
    if |xs| == 1 {
      assert (xs + [y])[1..] == [y];
    } else {
      assert (xs + [y])[1..] == xs[1..] + [y];
      JoinSnoc(xs[1..], y, sep);
    }
  }

  /** Concatenating the woven parts is joining the parts with `[ret]`. */
  lemma {:induction false} WeaveJoin(parts: seq<string>)
    requires |parts| >= 1
    ensures Join(Weave(parts), "") == Join(parts, "[ret]")
    decreases |parts|
  {
    if |parts| > 1 {
      var init, last := parts[..|parts| - 1], parts[|parts| - 1];
      WeaveJoin(init);
      var w := Weave(init);
      assert |w| >= 1 by {
        WeaveLength(init);
      }
      assert w + ["[ret]", last] == w + ["[ret]"] + [last];
      JoinSnoc(w, "[ret]", "");
      JoinSnoc(w + ["[ret]"], last, "");
      JoinSnoc(init, last, "[ret]");
      assert parts == init + [last];
    }
  }

  lemma {:induction false} WeaveLength(parts: seq<string>)
    requires |parts| >= 1
    ensures |Weave(parts)| == 2 * |parts| - 1
    decreases |parts|
  {
    if |parts| > 1 {
      WeaveLength(parts[..|parts| - 1]);
    }
  }

  /** `Assembler.finish`: `[ret]` is inserted between the pieces of a split on `[next]`. */
  method Finish(assembly: string) returns (r: string)
    ensures r == Join(Split(assembly, "[next]"), "[ret]")
  {
    var orig := Split(assembly, "[next]");
    var parts := orig;
    var i := 1;
    ghost var k := 1;
    WeaveLength(orig[..1]);
    assert orig[..1] == [orig[0]];
    while true
      invariant 1 <= k <= |orig| && i == 2 * k - 1
      invariant parts == Weave(orig[..k]) + orig[k..]
      decreases |orig| - k
    {
      WeaveLength(orig[..k]);
      if i >= |parts| {
        break;
      }
      assert parts[..i] == Weave(orig[..k]);
      assert parts[i..] == orig[k..];
      assert orig[..k + 1][..k] == orig[..k];
      parts := parts[..i] + ["[ret]"] + parts[i..];
      i := i + 2;
      assert orig[k..] == [orig[k]] + orig[k + 1..];
      k := k + 1;
    }
    assert orig[..k] == orig;
    assert parts == Weave(orig) by {
      assert orig[k..] == [];
    }
    WeaveJoin(orig);
    r := Join(parts, "");
  }

  /** What `finish` does, piece by piece: gluing its pieces back with `[next]` gives its input. */
  lemma {:induction false} FinishReplacesMarkers(assembly: string)
    ensures var parts := Split(assembly, "[next]");
      |parts| >= 1 && Join(parts, "[next]") == assembly
  {
    JoinSplit(assembly, "[next]");
  }

  // ---------------------------------------------------------------- assemble

  /** The pattern catalogue: `Pattern(code.strip())` for each code read from the files. */
  function Templates(codes: seq<string>): (ts: seq<string>)
    ensures |ts| == |codes|
  {
    seq(|codes|, k requires 0 <= k < |codes| => Template(Strip(codes[k])))
  }

  /** The skeleton assembled from one tuple of pattern indices. */
  function Skeleton(templates: seq<string>, tuple: seq<nat>): Option<string>
    requires Indices(templates, tuple)
  {
    match Structured(templates, None, tuple, map[], map[])
    case None => None
    case Some(a) => Some(Strip(Join(Split(Numbered(a), "[next]"), "[ret]")))
  }

  /** The body of `assemble`'s loop for one tuple. */
  method Build(templates: seq<string>, tuple: seq<nat>) returns (r: Option<string>)
    requires Indices(templates, tuple)
    ensures r == Skeleton(templates, tuple)
  {
    var patternList := tuple;
    var structured := Structure(templates, None, patternList, map[], map[]);
    if structured.None? {
      return None;
    }
    var numbered := Outs(structured.value);
    var finished := Finish(numbered);
    r := Some(Strip(finished));
  }

  function Min(a: int, b: int): int {
    if a <= b then a else b
  }

  /**
   * How many skeletons one run assembles: at most `program_set_size` (and at least one,
   * since the size is only tested after the first), and no more than are left after `start`.
   */
  function WindowLength(total: nat, size: int, start: nat): nat {
    if start >= total then 0 else Min(if size < 1 then 1 else size, total - start)
  }

  /** The skeleton of enumeration number `n`. */
  function Nth(templates: seq<string>, depth: nat, n: nat): Option<string>
    requires |templates| >= 1
  {
    Skeleton(templates, ColdProduct.Vector(|templates|, depth, n))
  }

  /** The pattern loop of `assemble`: one `Pattern(code.strip())` per code. */
  method LoadPatterns(codes: seq<string>) returns (patterns: seq<string>)
    ensures patterns == Templates(codes)
  {
    patterns := [];
    var c := 0;
    while c < |codes|
      invariant 0 <= c <= |codes|
      invariant patterns == Templates(codes)[..c]
    {
      patterns := patterns + [Template(Strip(codes[c]))];
      c := c + 1;
    }
    assert patterns == Templates(codes);
  }

  /**
   * The loop over the product in `assemble`: a skeleton per tuple, stopping once
   * `program_num` reaches `program_set_size - 1`.
   */
  method TakeWindow(patterns: seq<string>, tuples: seq<seq<nat>>, programSetSize: int)
    returns (r: Option<seq<string>>)
    requires forall k :: 0 <= k < |tuples| ==> Indices(patterns, tuples[k])
    ensures var count := Min(|tuples|, if programSetSize < 1 then 1 else programSetSize);
      && (r.Some? <==> forall k :: 0 <= k < count ==> Skeleton(patterns, tuples[k]).Some?)
      && (r.Some? ==> |r.value| == count)
      && (r.Some? ==> forall k :: 0 <= k < count ==> Some(r.value[k]) == Skeleton(patterns, tuples[k]))
  {
    var count := Min(|tuples|, if programSetSize < 1 then 1 else programSetSize);
    var skeletons: seq<string> := [];
    var programNum := 0;
    while programNum < |tuples|
      invariant 0 <= programNum <= |tuples|
      invariant programNum < (if programSetSize < 1 then 1 else programSetSize) && programNum <= count
      invariant |skeletons| == programNum
      invariant forall k :: 0 <= k < programNum ==> Some(skeletons[k]) == Skeleton(patterns, tuples[k])
    {
      var s := Build(patterns, tuples[programNum]);
      if s.None? {
        assert programNum < count && Skeleton(patterns, tuples[programNum]).None?;
        return None;
      }
      skeletons := skeletons + [s.value];
      if programNum >= programSetSize - 1 {
        programNum := programNum + 1;
        break;
      }
      programNum := programNum + 1;
    }
    assert programNum == count;
    r := Some(skeletons);
  }

  /**
   * `Assembler.assemble` over an in-memory catalogue of pattern codes: the skeletons of
   * the enumeration numbers from the one `product` starts at for `program_set_size *
   * (program_set - 1)` onwards, in order (for a start that is not negative, that start
   * itself; see `ColdProduct.FirstNumberNatural`).
   */
  method Assemble(codes: seq<string>, depth: nat, programSetSize: int, programSet: int)
    returns (r: Option<seq<string>>)
    requires |codes| >= 1 && depth >= 1
    ensures var templates := Templates(codes);
      var first := ColdProduct.FirstNumber(|codes|, depth, programSetSize * (programSet - 1));
      var count := WindowLength(ColdProduct.Power(|codes|, depth), programSetSize, first);
      && (r.Some? <==> forall n :: first <= n < first + count ==> Nth(templates, depth, n).Some?)
      && (r.Some? ==> |r.value| == count)
      && (r.Some? ==> forall n :: first <= n < first + count ==> Some(r.value[n - first]) == Nth(templates, depth, n))
  {
    var patterns := LoadPatterns(codes);
    var programStart := programSetSize * (programSet - 1);
    var tuples := ColdProduct.Product(|patterns|, depth, programStart);
    r := TakeWindow(patterns, tuples, programSetSize);
    ghost var first := ColdProduct.FirstNumber(|codes|, depth, programStart);
    ghost var count := WindowLength(ColdProduct.Power(|codes|, depth), programSetSize, first);
    assert count == Min(|tuples|, if programSetSize < 1 then 1 else programSetSize);
    WindowNumbers(patterns, depth, first, count, tuples, r);
  }

  /** Position `k` of the window is enumeration number `start + k`. */
  lemma {:induction false} WindowNumbers(templates: seq<string>, depth: nat, start: nat, count: nat,
                      tuples: seq<seq<nat>>, r: Option<seq<string>>)
    requires |templates| >= 1 && count <= |tuples|
    requires forall k :: 0 <= k < |tuples| ==> tuples[k] == ColdProduct.Vector(|templates|, depth, start + k)
    requires forall k :: 0 <= k < |tuples| ==> Indices(templates, tuples[k])
    requires r.Some? <==> forall k :: 0 <= k < count ==> Skeleton(templates, tuples[k]).Some?
    requires r.Some? ==> |r.value| == count
    requires r.Some? ==> forall k :: 0 <= k < count ==> Some(r.value[k]) == Skeleton(templates, tuples[k])
    ensures r.Some? <==> forall n :: start <= n < start + count ==> Nth(templates, depth, n).Some?
    ensures r.Some? ==> forall n :: start <= n < start + count ==> Some(r.value[n - start]) == Nth(templates, depth, n)
  {
    forall n | start <= n < start + count
      ensures Skeleton(templates, tuples[n - start]) == Nth(templates, depth, n)
    {
    }
    if r.None? {
      var k :| 0 <= k < count && Skeleton(templates, tuples[k]).None?;
      assert Nth(templates, depth, start + k).None?;
    }
  }

  /**
   * Consecutive windows cover the enumeration without overlap: number `n` is assembled by
   * the run with `program_set = n / program_set_size + 1`, at position `n % program_set_size`.
   */
  lemma {:induction false} WindowCovers(total: nat, size: int, n: nat)
    requires size >= 1 && n < total
    ensures var start := size * ((n / size + 1) - 1);
      && 0 <= start <= n
      && n - start == n % size
      && n - start < WindowLength(total, size, start)
  {
    var q := n / size;
    assert size * ((q + 1) - 1) == size * q;
    assert size * q + n % size == n;
  }

  // ---------------------------------------------------------------- splicing, by pieces

  /** Patterns of the form `front[next]back` whose two sides hold no placeholder. */
  predicate Chains(templates: seq<string>, fronts: seq<string>, backs: seq<string>) {
    && |fronts| == |templates| && |backs| == |templates|
    && forall i :: 0 <= i < |templates| ==>
         && templates[i] == fronts[i] + "[next]" + backs[i]
         && NoBrackets(fronts[i]) && NoBrackets(backs[i])
  }

  /** The fronts of the listed patterns, first pattern outermost. */
  function Fronts(fronts: seq<string>, list: seq<nat>): string
    requires forall k :: 0 <= k < |list| ==> list[k] < |fronts|
  {
    if |list| == 0 then "" else fronts[list[0]] + Fronts(fronts, list[1..])
  }

  /** The backs of the listed patterns, innermost first. */
  function Backs(backs: seq<string>, list: seq<nat>): string
    requires forall k :: 0 <= k < |list| ==> list[k] < |backs|
  {
    if |list| == 0 then "" else Backs(backs, list[1..]) + backs[list[0]]
  }

  lemma {:induction false} NoBracketsConcat(a: string, b: string)
    requires NoBrackets(a) && NoBrackets(b)
    ensures NoBrackets(a + b)
  {
    assert forall k :: 0 <= k < |a + b| ==> (a + b)[k] == if k < |a| then a[k] else b[k - |a|];
  }

  /** A pattern with only a `[next]` in it is not changed by renaming. */
  lemma {:induction false} RenameChain(tag: char, f: string, b: string, names: map<string, string>)
    requires NoBrackets(f) && NoBrackets(b) && tag != 'n'
    ensures Rename(tag, f + "[next]" + b, names) == Some((f + "[next]" + b, names))
  {
    var ps := [Chars(f), Slot("next"), Chars(b)];
    assert Render(ps[2..]) == b by {
      assert Render(ps[2..][1..]) == "";
      assert b + "" == b;
    }
    assert Render(ps[1..]) == "[next]" + b;
    assert Render(ps) == f + "[next]" + b;
    var s := Scanner("", false, "", map[], names);
    RenameRendered(tag, ps, s, "");
    RewriteUntagged(tag, ps, map[], names);
    assert Render(ps) + "" == Render(ps);
    assert "" + Render(ps) == Render(ps);
  }

  lemma {:induction false} PrepareChain(f: string, b: string, jumps: map<string, string>, locals: map<string, string>)
    requires NoBrackets(f) && NoBrackets(b)
    ensures Prepare(f + "[next]" + b, jumps, locals) == Some((f + "[next]" + b, jumps, locals))
  {
    RenameChain('j', f, b, jumps);
    RenameChain('l', f, b, locals);
  }

  /** Text outside brackets is copied by a pass. */
  lemma {:induction false} SpliceText(templates: seq<string>, s: Splicer, text: string, rest: string)
    requires Indices(templates, s.rest) && NoBrackets(text) && !s.inBracket
    ensures SpliceFrom(templates, s, text + rest) == SpliceFrom(templates, s.(out := s.out + text), rest)
    decreases |text|
  {
    if |text| == 0 {
      assert text + rest == rest;
      assert s.out + text == s.out;
    } else {
      var c := text[0];
      assert (text + rest)[0] == c;
      assert (text + rest)[1..] == text[1..] + rest;
      SpliceText(templates, s.(out := s.out + [c]), text[1..], rest);
      assert s.out + [c] + text[1..] == s.out + text;
    }
  }

  /** Inside brackets, plain text joins the parameter. */
  lemma {:induction false} SpliceParam(templates: seq<string>, s: Splicer, text: string, rest: string)
    requires Indices(templates, s.rest) && s.inBracket && NoBrackets(text)
    ensures SpliceFrom(templates, s, text + rest) == SpliceFrom(templates, s.(param := s.param + text), rest)
    decreases |text|
  {
    if |text| == 0 {
      assert text + rest == rest;
      assert s.param + text == s.param;
    } else {
      var c := text[0];
      assert (text + rest)[0] == c;
      assert (text + rest)[1..] == text[1..] + rest;
      SpliceParam(templates, s.(param := s.param + [c]), text[1..], rest);
      assert s.param + [c] + text[1..] == s.param + text;
    }
  }

  /** Reading `[next` gathers the parameter `next`. */
  lemma {:induction false} SpliceBracketNext(templates: seq<string>, s: Splicer, rest: string)
    requires Indices(templates, s.rest) && !s.inBracket && s.param == ""
    ensures SpliceFrom(templates, s, "[next]" + rest)
         == SpliceFrom(templates, s.(inBracket := true, param := "next"), "]" + rest)
  {
    var m := "[next]" + rest;
    assert m[0] == '[';
    assert m[1..] == "next" + ("]" + rest);
    assert NoBrackets("next");
    SpliceParam(templates, s.(inBracket := true), "next", "]" + rest);
    assert "" + "next" == "next";
  }

  /** With patterns left, a pass meeting `[next]` splices in the next one, prepared. */
  lemma {:induction false} SpliceMarker(templates: seq<string>, s: Splicer, rest: string,
                     pr: (string, map<string, string>, map<string, string>))
    requires Indices(templates, s.rest) && !s.inBracket && s.param == "" && |s.rest| > 0
    requires Prepare(templates[s.rest[0]], s.jumps, s.locals) == Some(pr)
    ensures SpliceFrom(templates, s, "[next]" + rest)
         == SpliceFrom(templates, Splicer(s.out + pr.0, false, "", s.rest[1..], pr.1, pr.2), rest)
  {
    SpliceBracketNext(templates, s, rest);
    assert ("]" + rest)[1..] == rest;
  }

  /** With no pattern left, a pass keeps `[next]` as it is. */
  lemma {:induction false} SpliceMarkerLast(templates: seq<string>, s: Splicer, rest: string)
    requires Indices(templates, s.rest) && !s.inBracket && s.param == "" && |s.rest| == 0
    ensures SpliceFrom(templates, s, "[next]" + rest)
         == SpliceFrom(templates, s.(out := s.out + "[next]"), rest)
  {
    SpliceBracketNext(templates, s, rest);
    assert ("]" + rest)[1..] == rest;
  }

  /** One pass over `P[next]S` with no pattern left: nothing changes. */
  lemma {:induction false} SplicePassLast(templates: seq<string>, p: string, q: string, rest: seq<nat>,
                       jumps: map<string, string>, locals: map<string, string>)
    requires Indices(templates, rest) && |rest| == 0 && NoBrackets(p) && NoBrackets(q)
    ensures SpliceFrom(templates, Splicer("", false, "", rest, jumps, locals), p + "[next]" + q)
         == Some(Splicer(p + "[next]" + q, false, "", rest, jumps, locals))
  {
    var s := Splicer("", false, "", rest, jumps, locals);
    assert p + "[next]" + q == p + ("[next]" + q);
    SpliceText(templates, s, p, "[next]" + q);
    assert "" + p == p;
    SpliceMarkerLast(templates, s.(out := p), q);
    SpliceText(templates, s.(out := p + "[next]"), q, "");
    assert q + "" == q;
  }

  /** One pass over `P[next]S`, `P` and `S` free of placeholders, splices in the next pattern. */
  lemma {:induction false} SplicePassChain(templates: seq<string>, fronts: seq<string>, backs: seq<string>,
                        p: string, q: string, rest: seq<nat>,
                        jumps: map<string, string>, locals: map<string, string>)
    requires Chains(templates, fronts, backs) && Indices(templates, rest) && |rest| > 0
    requires NoBrackets(p) && NoBrackets(q)
    ensures SpliceFrom(templates, Splicer("", false, "", rest, jumps, locals), p + "[next]" + q)
         == Some(Splicer(p + templates[rest[0]] + q, false, "", rest[1..], jumps, locals))
  {
    var s := Splicer("", false, "", rest, jumps, locals);
    var i := rest[0];
    var t := templates[i];
    assert p + "[next]" + q == p + ("[next]" + q);
    SpliceText(templates, s, p, "[next]" + q);
    assert "" + p == p;
    PrepareChain(fronts[i], backs[i], jumps, locals);
    SpliceMarker(templates, s.(out := p), q, (t, jumps, locals));
    var s2 := Splicer(p + t, false, "", rest[1..], jumps, locals);
    assert Indices(templates, s2.rest) by {
      assert forall k :: 0 <= k < |s2.rest| ==> s2.rest[k] == rest[k + 1];
    }
    SpliceText(templates, s2, q, "");
    assert q + "" == q;
  }

  /** `P + "[next]" + S` contains `[next]`. */
  lemma {:induction false} MarkerIn(p: string, q: string)
    ensures Contains(p + "[next]" + q, "[next]")
  {
    var t := p + "[next]" + q;
    assert t[|p|..][..6] == "[next]";
  }

  /** A pass that used up the list ends `structure`. */
  lemma {:induction false} StructuredStop(templates: seq<string>, assembly: string, list: seq<nat>,
                       jumps: map<string, string>, locals: map<string, string>, s: Splicer)
    requires Indices(templates, list)
    requires SpliceFrom(templates, Splicer("", false, "", list, jumps, locals), assembly) == Some(s)
    requires |s.rest| == 0
    ensures Structured(templates, Some(assembly), list, jumps, locals) == Some(s.out)
  {
  }

  /** A pass that leaves patterns and a marker is followed by another pass. */
  lemma {:induction false} StructuredStep(templates: seq<string>, assembly: string, list: seq<nat>,
                       jumps: map<string, string>, locals: map<string, string>, s: Splicer)
    requires Indices(templates, list)
    requires SpliceFrom(templates, Splicer("", false, "", list, jumps, locals), assembly) == Some(s)
    requires |s.rest| > 0 && Contains(s.out, "[next]")
    ensures Indices(templates, s.rest) && |s.rest| < |list|
    ensures Structured(templates, Some(assembly), list, jumps, locals)
         == Structured(templates, Some(s.out), s.rest, s.jumps, s.locals)
  {
    NoMarkerInEmpty();
    SpliceClean(templates, Splicer("", false, "", list, jumps, locals), assembly);
    assert Indices(templates, s.rest) by {
      var d := |list| - |s.rest|;
      assert forall k :: 0 <= k < |s.rest| ==> s.rest[k] == list[d + k];
    }
  }

  /** Passes over `P[next]S` splice each listed pattern into the marker the previous one left. */
  lemma {:induction false} StructuredChain(templates: seq<string>, fronts: seq<string>, backs: seq<string>,
                                           p: string, q: string, rest: seq<nat>,
                                           jumps: map<string, string>, locals: map<string, string>)
    requires Chains(templates, fronts, backs) && Indices(templates, rest)
    requires NoBrackets(p) && NoBrackets(q)
    ensures Structured(templates, Some(p + "[next]" + q), rest, jumps, locals)
         == Some(p + Fronts(fronts, rest) + "[next]" + Backs(backs, rest) + q)
    decreases |rest|
  {
    if |rest| <= 1 {
      ChainShort(templates, fronts, backs, p, q, rest, jumps, locals);
    } else {
      var i := rest[0];
      ChainStep(templates, fronts, backs, p, q, rest, jumps, locals);
      StructuredChain(templates, fronts, backs, p + fronts[i], backs[i] + q, rest[1..], jumps, locals);
      ChainGlue(templates, fronts, backs, p, q, rest);
    }
  }

  /** No pattern or one pattern left: the last pass ends `structure`. */
  lemma {:induction false} ChainShort(templates: seq<string>, fronts: seq<string>, backs: seq<string>,
                   p: string, q: string, rest: seq<nat>,
                   jumps: map<string, string>, locals: map<string, string>)
    requires Chains(templates, fronts, backs) && Indices(templates, rest) && |rest| <= 1
    requires NoBrackets(p) && NoBrackets(q)
    ensures Structured(templates, Some(p + "[next]" + q), rest, jumps, locals)
         == Some(p + Fronts(fronts, rest) + "[next]" + Backs(backs, rest) + q)
  {
    if |rest| == 0 {
      ChainNone(templates, p, q, rest, jumps, locals);
      assert Fronts(fronts, rest) == "" && Backs(backs, rest) == "";
    } else {
      ChainOne(templates, fronts, backs, p, q, rest, jumps, locals);
    }
  }

  /** No pattern left: the pass leaves the marker in place. */
  lemma {:induction false} ChainNone(templates: seq<string>, p: string, q: string, rest: seq<nat>,
                  jumps: map<string, string>, locals: map<string, string>)
    requires Indices(templates, rest) && |rest| == 0
    requires NoBrackets(p) && NoBrackets(q)
    ensures Structured(templates, Some(p + "[next]" + q), rest, jumps, locals)
         == Some(p + "" + "[next]" + "" + q)
  {
    var a := p + "[next]" + q;
    SplicePassLast(templates, p, q, rest, jumps, locals);
    StructuredStop(templates, a, rest, jumps, locals, Splicer(a, false, "", rest, jumps, locals));
    assert p + "" + "[next]" + "" + q == a;
  }

  /** One pattern left: the last pass splices it into the marker and ends `structure`. */
  lemma {:induction false} ChainOne(templates: seq<string>, fronts: seq<string>, backs: seq<string>,
                 p: string, q: string, rest: seq<nat>,
                 jumps: map<string, string>, locals: map<string, string>)
    requires Chains(templates, fronts, backs) && Indices(templates, rest) && |rest| == 1
    requires NoBrackets(p) && NoBrackets(q)
    ensures Structured(templates, Some(p + "[next]" + q), rest, jumps, locals)
         == Some(p + Fronts(fronts, rest) + "[next]" + Backs(backs, rest) + q)
  {
    var a := p + "[next]" + q;
    SplicePassChain(templates, fronts, backs, p, q, rest, jumps, locals);
    var i := rest[0];
    var f, b := fronts[i], backs[i];
    var out := p + templates[i] + q;
    StructuredStop(templates, a, rest, jumps, locals, Splicer(out, false, "", rest[1..], jumps, locals));
    assert Fronts(fronts, rest) == f + "";
    assert Backs(backs, rest) == "" + b;
    assert out == p + (f + "") + "[next]" + ("" + b) + q;
  }

  /** With two or more patterns left, one pass splices the first between `P` and `S`. */
  lemma {:induction false} ChainStep(templates: seq<string>, fronts: seq<string>, backs: seq<string>,
                  p: string, q: string, rest: seq<nat>,
                  jumps: map<string, string>, locals: map<string, string>)
    requires Chains(templates, fronts, backs) && Indices(templates, rest) && |rest| >= 2
    requires NoBrackets(p) && NoBrackets(q)
    ensures Indices(templates, rest[1..])
    ensures NoBrackets(p + fronts[rest[0]]) && NoBrackets(backs[rest[0]] + q)
    ensures Structured(templates, Some(p + "[next]" + q), rest, jumps, locals)
         == Structured(templates, Some((p + fronts[rest[0]]) + "[next]" + (backs[rest[0]] + q)), rest[1..], jumps, locals)
  {
    SplicePassChain(templates, fronts, backs, p, q, rest, jumps, locals);
    var i := rest[0];
    var f, b := fronts[i], backs[i];
    var out := p + templates[i] + q;
    var s := Splicer(out, false, "", rest[1..], jumps, locals);
    assert out == (p + f) + "[next]" + (b + q);
    MarkerIn(p + f, b + q);
    StructuredStep(templates, p + "[next]" + q, rest, jumps, locals, s);
    NoBracketsConcat(p, f);
    NoBracketsConcat(b, q);
  }

  /** The fronts and backs of the remaining patterns nest inside the first one's. */
  lemma {:induction false} ChainGlue(templates: seq<string>, fronts: seq<string>, backs: seq<string>,
                  p: string, q: string, rest: seq<nat>)
    requires Chains(templates, fronts, backs) && Indices(templates, rest) && |rest| >= 1
    ensures var i, r := rest[0], rest[1..];
      (p + fronts[i]) + Fronts(fronts, r) + "[next]" + Backs(backs, r) + (backs[i] + q)
      == p + Fronts(fronts, rest) + "[next]" + Backs(backs, rest) + q
  {
    var i, r := rest[0], rest[1..];
    var f, b := fronts[i], backs[i];
    var fs, bs := Fronts(fronts, r), Backs(backs, r);
    assert Fronts(fronts, rest) == f + fs;
    assert Backs(backs, rest) == bs + b;
    assert (p + f) + fs + "[next]" + bs + (b + q) == p + (f + fs) + "[next]" + (bs + b) + q;
  }

  /**
   * With patterns of the form `front[next]back`, `structure` nests them: the fronts in list
   * order, one `[next]`, then the backs in reverse order.
   */
  lemma {:induction false} StructureNests(templates: seq<string>, fronts: seq<string>, backs: seq<string>, list: seq<nat>)
    requires Chains(templates, fronts, backs) && Indices(templates, list) && |list| >= 1
    ensures Structured(templates, None, list, map[], map[])
         == Some(Fronts(fronts, list) + "[next]" + Backs(backs, list))
  {
    var i := list[0];
    PrepareChain(fronts[i], backs[i], map[], map[]);
    var rest := list[1..];
    assert Indices(templates, rest) by {
      assert forall k :: 0 <= k < |rest| ==> rest[k] == list[k + 1];
    }
    assert Structured(templates, None, list, map[], map[])
        == Structured(templates, Some(templates[i]), rest, map[], map[]);
    StructuredChain(templates, fronts, backs, fronts[i], backs[i], rest, map[], map[]);
    var fs, bs := Fronts(fronts, rest), Backs(backs, rest);
    assert Fronts(fronts, list) == fronts[i] + fs;
    assert Backs(backs, list) == bs + backs[i];
    assert fronts[i] + fs + "[next]" + bs + backs[i] == (fronts[i] + fs) + "[next]" + (bs + backs[i]);
  }
}
