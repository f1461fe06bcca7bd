/** The loops that split SQL text, character by character. */
module SqlScanner {
  import opened Bytes
  import opened SqlScan

  method DelimiterAt(s: string, i: nat) returns (r: Option<string>)
    requires i < |s|
    ensures r == Delimiter(s, i)
  {
    var j := i + 1;
    while j < |s| && TagChar(s[j])
      invariant i + 1 <= j <= |s| && TagEnd(s, i + 1) == TagEnd(s, j)
    {
      j := j + 1;
    }
    if j == |s| || s[j] != '$' { return None; }
    var tag := s[i + 1..j];
    if tag != [] && AsciiDigit(tag[0]) { return None; }
    r := Some(tag);
  }

  lemma RunStep(w: Letters, s: string, st: State)
    requires Reading(s, st) && st.at < |s|
    ensures Run(w, s, st) == Run(w, s, Step(w, s, st))
  {
  }

  predicate CommentAt(s: string, i: nat)
    requires i < |s|
  {
    (s[i] == '-' && Has(s, i + 1, '-')) || (s[i] == '/' && Has(s, i + 1, '*'))
  }

  /** What a comment leaves open behind it: nothing, the end of its line, or all of itself. */
  predicate Behind(s: string, i: nat, m: Mode) {
    || m == Code
    || (m == Line && i <= |s| && (i < |s| ==> s[i] == '\n'))
    || (m.Block? && i == |s|)
  }

  method CopyLine(w: Letters, s: string, from: nat, cur: string, ghost st: State) returns (i: nat, out: string)
    requires Reading(s, st) && st.mode == Code && st.at == from < |s| && s[from] == '-' && Has(s, from + 1, '-')
    ensures from < i <= |s| && out == cur + s[from..i] && Behind(s, i, Line)
    ensures Run(w, s, st) == Run(w, s, st.(at := i, mode := Line))
  {
    hide Run;
    RunStep(w, s, st);
    i, out := from, cur;
    while i < |s| && s[i] != '\n'
      invariant from <= i <= |s| && out == cur + s[from..i]
      invariant Run(w, s, st) == Run(w, s, st.(at := if i < from + 2 then from + 2 else i, mode := Line))
    {
      if i >= from + 2 { RunStep(w, s, st.(at := i, mode := Line)); }
      out := out + [s[i]];
      i := i + 1;
    }
  }

  predicate Appended(s: string, from: nat, i: nat, cur: string, out: string) {
    from <= i <= |s| && out == cur + s[from..i]
  }

  lemma AppendNone(s: string, from: nat, cur: string)
    requires from <= |s|
    ensures Appended(s, from, from, cur, cur)
  {
  }

  lemma AppendOn(s: string, from: nat, i: nat, cur: string, out: string, more: string)
    requires Appended(s, from, i, cur, out) && i + |more| <= |s| && s[i..i + |more|] == more
    ensures Appended(s, from, i + |more|, cur, out + more)
  {
    assert s[from..i] + s[i..i + |more|] == s[from..i + |more|];
  }

  lemma AppendPair(s: string, from: nat, i: nat, cur: string, out: string, pair: string)
    requires Appended(s, from, i, cur, out) && |pair| == 2 && s[i..] != [] && s[i] == pair[0] && Has(s, i + 1, pair[1])
    ensures Appended(s, from, i + 2, cur, out + pair)
  {
    assert s[i..i + 2] == pair;
    AppendOn(s, from, i, cur, out, pair);
  }

  lemma BlockOpens(w: Letters, s: string, st: State)
    requires Reading(s, st) && st.mode == Code && st.at < |s| && s[st.at] == '/' && Has(s, st.at + 1, '*')
    ensures Run(w, s, st) == Run(w, s, st.(at := st.at + 2, mode := Block(1)))
  {
    hide Run;
    RunStep(w, s, st);
  }

  /** How a block comment reads on. */
  lemma BlockOn(w: Letters, s: string, st: State, i: nat, depth: nat)
    requires st.start <= i < |s| && depth >= 1
    ensures var was := Run(w, s, st.(at := i, mode := Block(depth)));
            && (s[i] == '/' && Has(s, i + 1, '*') ==> was == Run(w, s, st.(at := i + 2, mode := Block(depth + 1))))
            && (s[i] == '*' && Has(s, i + 1, '/') ==>
                  was == Run(w, s, st.(at := i + 2, mode := if depth == 1 then Code else Block(depth - 1))))
            && (!(s[i] == '/' && Has(s, i + 1, '*')) && !(s[i] == '*' && Has(s, i + 1, '/')) ==>
                  was == Run(w, s, st.(at := i + 1, mode := Block(depth))))
  {
    hide Run;
    RunStep(w, s, st.(at := i, mode := Block(depth)));
  }

  method CopyBlock(w: Letters, s: string, from: nat, cur: string, ghost st: State)
    returns (i: nat, out: string, closed: bool, ghost m: Mode)
    requires Reading(s, st) && st.mode == Code && st.at == from < |s| && s[from] == '/' && Has(s, from + 1, '*')
    ensures Appended(s, from, i, cur, out)
    ensures i > from && Behind(s, i, m)
    ensures m == Code || m.Block?
    ensures closed <==> m == Code
    ensures Run(w, s, st) == Run(w, s, st.(at := i, mode := m))
  {
    hide Run, Appended;
    BlockOpens(w, s, st);
    AppendNone(s, from, cur);
    AppendPair(s, from, from, cur, cur, "/*");
    i, out := from + 2, cur + "/*";
    var depth := 1;
    while i < |s|
      invariant from + 2 <= i <= |s| && depth >= 1 && Appended(s, from, i, cur, out)
      invariant Run(w, s, st) == Run(w, s, st.(at := i, mode := Block(depth)))
    {
      BlockOn(w, s, st, i, depth);
      if s[i] == '/' && Has(s, i + 1, '*') {
        depth := depth + 1;
        AppendPair(s, from, i, cur, out, "/*");
        out := out + "/*";
        i := i + 2;
      } else if s[i] == '*' && Has(s, i + 1, '/') {
        depth := depth - 1;
        AppendPair(s, from, i, cur, out, "*/");
        out := out + "*/";
        i := i + 2;
        if depth == 0 { return i, out, true, Code; }
      } else {
        AppendOn(s, from, i, cur, out, [s[i]]);
        out := out + [s[i]];
        i := i + 1;
      }
    }
    closed, m := false, Block(depth);
  }

  /** Copy the comment that starts at `from`, if one does: where it ends, and whether it was closed. */
  method CopyComment(w: Letters, s: string, from: nat, cur: string, ghost st: State)
    returns (r: Option<(nat, bool)>, out: string, ghost m: Mode)
    requires Reading(s, st) && st.mode == Code && st.at == from < |s|
    ensures r.Some? <==> CommentAt(s, from)
    ensures r.None? ==> out == cur
    ensures r.Some? ==>
              && from < r.value.0 <= |s| && out == cur + s[from..r.value.0]
              && Behind(s, r.value.0, m) && (r.value.1 <==> !m.Block?)
              && Run(w, s, st) == Run(w, s, st.(at := r.value.0, mode := m))
  {
    if s[from] == '-' && Has(s, from + 1, '-') {
      var i, copied := CopyLine(w, s, from, cur, st);
      return Some((i, true)), copied, Line;
    }
    if s[from] == '/' && Has(s, from + 1, '*') {
      var i, copied, closed, left := CopyBlock(w, s, from, cur, st);
      return Some((i, closed)), copied, left;
    }
    return None, cur, Code;
  }

  /** At the end of its line a comment is over. */
  lemma LineOver(w: Letters, s: string, st: State)
    requires Reading(s, st) && st.at < |s| && s[st.at] == '\n' && st.mode == Line
    ensures Run(w, s, st) == Run(w, s, st.(mode := Code))
  {
    assert Step(w, s, st) == Step(w, s, st.(mode := Code));
  }

  // The main loop --------------------------------------------------------------------------------

  /** The variables of the loop. */
  datatype Locals = Locals(
    i: nat,
    cur: string,
    inSingle: bool,
    inDouble: bool,
    escapes: bool,
    dollar: Option<string>,
    hasCode: bool,
    terminated: bool,
    openComment: bool,
    out: seq<string>
  )

  /** What the flags say is open: comments are behind the loop, but for what their ends leave. */
  predicate Flags(s: string, x: Locals, m: Mode) {
    && (x.inSingle <==> m.Single?) && (x.inDouble <==> m.Double?)
    && (m.Single? ==> x.escapes == m.escapes)
    && x.dollar == (if m.Dollar? then Some(m.tag) else None)
    && (x.openComment <==> m.Block?)
    && (m == Code || m == Line || m.Block? ==> Behind(s, x.i, m))
  }

  predicate Tallies(x: Locals, st: State) {
    && st.at == x.i && st.code == x.hasCode && st.out == x.out
    && (x.terminated <==> st.start > 0 && !st.code)
  }

  predicate Agrees(s: string, x: Locals, st: State) {
    Reading(s, st) && Copied(s, st.start, x.i, x.cur) && Flags(s, x, st.mode) && Tallies(x, st)
  }

  /** The statement being read is copied as far as the text is read. */
  predicate Copied(s: string, start: nat, i: nat, cur: string) {
    start <= i && start <= |s| && cur == s[start..if i < |s| then i else |s|]
  }

  lemma CopyOn(s: string, start: nat, i: nat, cur: string, more: string)
    requires Copied(s, start, i, cur) && i < |s|
    requires i + |more| <= |s| && s[i..i + |more|] == more
    ensures Copied(s, start, i + |more|, cur + more)
  {
    assert s[start..i] + s[i..i + |more|] == s[start..i + |more|];
  }

  lemma CopyOne(s: string, start: nat, i: nat, cur: string)
    requires Copied(s, start, i, cur) && i < |s|
    ensures Copied(s, start, i + 1, cur + [s[i]])
  {
    CopyOn(s, start, i, cur, [s[i]]);
  }

  lemma CopyTwo(s: string, start: nat, i: nat, cur: string)
    requires Copied(s, start, i, cur) && i < |s|
    ensures Copied(s, start, i + 2, if i + 1 < |s| then cur + [s[i]] + [s[i + 1]] else cur + [s[i]])
  {
    CopyOne(s, start, i, cur);
    if i + 1 < |s| { CopyOne(s, start, i + 1, cur + [s[i]]); }
  }

  lemma CopyNone(s: string, i: nat)
    requires i <= |s|
    ensures Copied(s, i, i, "")
  {
  }

  lemma CopyDone(s: string, start: nat, i: nat, cur: string)
    requires Copied(s, start, i, cur)
    ensures start <= i && start <= |s| && cur == s[start..if i < |s| then i else |s|]
  {
  }

  // One token, by what is open -------------------------------------------------------------------

  lemma StepDollar(w: Letters, s: string, st: State)
    requires Reading(s, st) && st.at < |s| && st.mode.Dollar?
    ensures Step(w, s, st)
         == if s[st.at] == '$' && Delimiter(s, st.at) == Some(st.mode.tag) then st.(at := st.at + |st.mode.tag| + 2, mode := Code)
            else st.(at := st.at + 1)
  {
  }

  lemma StepSingle(w: Letters, s: string, st: State)
    requires Reading(s, st) && st.at < |s| && st.mode.Single?
    ensures var c, code := s[st.at], st.code || !Neutral(s[st.at]);
            Step(w, s, st) ==
            if (c == '\\' && st.mode.escapes) || (c == '\'' && Has(s, st.at + 1, '\'')) then st.(at := st.at + 2, code := code)
            else if c == '\'' then st.(at := st.at + 1, mode := Code, code := code)
            else st.(at := st.at + 1, code := code)
  {
  }

  lemma StepDouble(w: Letters, s: string, st: State)
    requires Reading(s, st) && st.at < |s| && st.mode.Double?
    ensures var c, code := s[st.at], st.code || !Neutral(s[st.at]);
            Step(w, s, st) ==
            if c == '"' && Has(s, st.at + 1, '"') then st.(at := st.at + 2, code := code)
            else if c == '"' then st.(at := st.at + 1, mode := Code, code := code)
            else st.(at := st.at + 1, code := code)
  {
  }

  lemma StepCode(w: Letters, s: string, st: State)
    requires Reading(s, st) && st.at < |s| && st.mode == Code && !CommentAt(s, st.at) && s[st.at] != ';'
    ensures var c := s[st.at];
            var code := st.code || !White(c);
            Step(w, s, st) ==
            if c == '\'' then st.(at := st.at + 1, mode := Single(OpensEscape(w, s, st.at)), code := code)
            else if c == '"' then st.(at := st.at + 1, mode := Double, code := code)
            else if c == '$' && Delimiter(s, st.at).Some? then
              st.(at := st.at + |Delimiter(s, st.at).value| + 2, mode := Dollar(Delimiter(s, st.at).value), code := code)
            else st.(at := st.at + 1, code := code)
  {
  }

  lemma StepCut(w: Letters, s: string, st: State, cur: string)
    requires Reading(s, st) && st.at < |s| && st.mode == Code && s[st.at] == ';' && Copied(s, st.start, st.at, cur)
    ensures Step(w, s, st)
         == State(st.at + 1, Code, st.at + 1, false, if st.code then st.out + [Trim(cur)] else st.out)
  {
    hide Trim;
    assert st.out + [] == st.out;
  }

  // The loop -------------------------------------------------------------------------------------

  /** A character that is neither white space nor a semicolon is code. */
  function Mark(x: Locals, c: char): Locals {
    if Neutral(c) then x else x.(hasCode := true, terminated := false)
  }

  /** Copy characters of the text: one, two if there are two, or a given number. */
  function CopyNext(s: string, x: Locals): (y: Locals)
    requires x.i < |s|
    ensures y == x.(cur := y.cur, i := x.i + 1)
  {
    x.(cur := x.cur + [s[x.i]], i := x.i + 1)
  }

  function CopyPair(s: string, x: Locals): (y: Locals)
    requires x.i < |s|
    ensures y == x.(cur := y.cur, i := x.i + 2)
  {
    x.(cur := if x.i + 1 < |s| then x.cur + [s[x.i]] + [s[x.i + 1]] else x.cur + [s[x.i]], i := x.i + 2)
  }

  function CopyMany(s: string, x: Locals, n: nat): (y: Locals)
    requires x.i + n <= |s|
    ensures y == x.(cur := y.cur, i := x.i + n)
  {
    x.(cur := x.cur + s[x.i..x.i + n], i := x.i + n)
  }

  lemma CopiedNext(s: string, start: nat, x: Locals)
    requires Copied(s, start, x.i, x.cur) && x.i < |s|
    ensures Copied(s, start, x.i + 1, CopyNext(s, x).cur) && Copied(s, start, x.i + 2, CopyPair(s, x).cur)
  {
    hide Copied;
    CopyOne(s, start, x.i, x.cur);
    CopyTwo(s, start, x.i, x.cur);
  }

  lemma CopiedMany(s: string, start: nat, x: Locals, n: nat)
    requires Copied(s, start, x.i, x.cur) && x.i < |s| && x.i + n <= |s|
    ensures Copied(s, start, x.i + n, CopyMany(s, x, n).cur)
  {
    CopyOn(s, start, x.i, x.cur, s[x.i..x.i + n]);
  }

  /** One character of a dollar body, or the delimiter that closes it. */
  method ReadDollar(w: Letters, s: string, x: Locals, ghost st: State) returns (y: Locals, ghost r: State)
    requires Agrees(s, x, st) && x.i < |s| && x.dollar.Some?
    ensures r == Step(w, s, st)
    ensures Copied(s, r.start, y.i, y.cur)
    ensures Flags(s, y, r.mode)
    ensures Tallies(y, r)
  {
    hide Copied, Step, Delimiter, CopyNext, CopyMany;
    StepDollar(w, s, st);
    r := Step(w, s, st);
    if s[x.i] == '$' {
      var closing := DelimiterAt(s, x.i);
      if closing == x.dollar {
        var n := |x.dollar.value| + 2;
        CopiedMany(s, st.start, x, n);
        y := CopyMany(s, x, n).(dollar := None);
        return;
      }
    }
    CopiedNext(s, st.start, x);
    y := CopyNext(s, x);
  }

  /** One character of a string, with the one it escapes. */
  method ReadSingle(w: Letters, s: string, x: Locals, ghost st: State) returns (y: Locals, ghost r: State)
    requires Agrees(s, x, st) && x.i < |s| && x.inSingle
    ensures r == Step(w, s, st)
    ensures Copied(s, r.start, y.i, y.cur)
    ensures Flags(s, y, r.mode)
    ensures Tallies(y, r)
  {
    hide Copied, Step, White, CopyNext, CopyPair;
    StepSingle(w, s, st);
    r := Step(w, s, st);
    var c := s[x.i];
    CopiedNext(s, st.start, Mark(x, c));
    if (c == '\\' && x.escapes) || (c == '\'' && Has(s, x.i + 1, '\'')) {
      y := CopyPair(s, Mark(x, c));
    } else {
      y := CopyNext(s, Mark(x, c)).(inSingle := c != '\'');
    }
  }

  /** One character of a quoted identifier, with the quote that doubles it. */
  method ReadDouble(w: Letters, s: string, x: Locals, ghost st: State) returns (y: Locals, ghost r: State)
    requires Agrees(s, x, st) && x.i < |s| && x.inDouble
    ensures r == Step(w, s, st)
    ensures Copied(s, r.start, y.i, y.cur)
    ensures Flags(s, y, r.mode)
    ensures Tallies(y, r)
  {
    hide Copied, Step, White, CopyNext, CopyPair;
    StepDouble(w, s, st);
    r := Step(w, s, st);
    var c := s[x.i];
    CopiedNext(s, st.start, Mark(x, c));
    if c == '"' && Has(s, x.i + 1, '"') {
      y := CopyPair(s, Mark(x, c));
    } else {
      y := CopyNext(s, Mark(x, c)).(inDouble := c != '"');
    }
  }

  /** The semicolon that ends a statement. */
  method ReadSemicolon(w: Letters, s: string, x: Locals, ghost st: State) returns (y: Locals, ghost r: State)
    requires Agrees(s, x, st) && x.i < |s| && st.mode == Code && s[x.i] == ';'
    ensures r == Step(w, s, st)
    ensures Copied(s, r.start, y.i, y.cur)
    ensures Flags(s, y, r.mode)
    ensures Tallies(y, r)
  {
    hide Copied, Step, Trim, White;
    r := Step(w, s, st);
    StepCut(w, s, st, x.cur);
    CopyNone(s, x.i + 1);
    y := x.(cur := "", hasCode := false, terminated := true, i := x.i + 1,
            out := if x.hasCode then x.out + [Trim(x.cur)] else x.out);
  }

  /** A dollar sign, with the rest of the delimiter it may begin. */
  method ReadOpening(w: Letters, s: string, x: Locals, ghost st: State) returns (y: Locals, ghost r: State)
    requires Agrees(s, x, st) && x.i < |s| && st.mode == Code && s[x.i] == '$'
    ensures r == Step(w, s, st)
    ensures Copied(s, r.start, y.i, y.cur)
    ensures Flags(s, y, r.mode)
    ensures Tallies(y, r)
  {
    hide Copied, Step, Delimiter, OpensEscape, CopyNext, CopyMany;
    StepCode(w, s, st);
    r := Step(w, s, st);
    var tag := DelimiterAt(s, x.i);
    if tag.Some? {
      var n := |tag.value| + 2;
      CopiedMany(s, st.start, Mark(x, '$'), n);
      y := CopyMany(s, Mark(x, '$'), n).(dollar := tag);
    } else {
      CopiedNext(s, st.start, Mark(x, '$'));
      y := CopyNext(s, Mark(x, '$'));
    }
  }

  /** Another character outside quotes, dollar bodies and comments. */
  method ReadCode(w: Letters, s: string, x: Locals, ghost st: State) returns (y: Locals, ghost r: State)
    requires Agrees(s, x, st) && x.i < |s| && st.mode == Code && !CommentAt(s, x.i) && s[x.i] != ';' && s[x.i] != '$'
    ensures r == Step(w, s, st)
    ensures Copied(s, r.start, y.i, y.cur)
    ensures Flags(s, y, r.mode)
    ensures Tallies(y, r)
  {
    hide Copied, Step, OpensEscape, White, CopyNext;
    StepCode(w, s, st);
    r := Step(w, s, st);
    var c := s[x.i];
    CopiedNext(s, st.start, Mark(x, c));
    y := CopyNext(s, Mark(x, c)).(inSingle := c == '\'', inDouble := c == '"',
                                  escapes := if c == '\'' then OpensEscape(w, s, x.i) else x.escapes);
  }

  /** One character with what belongs to it, or a whole comment. */
  method ReadNext(w: Letters, s: string, x: Locals, ghost st: State) returns (y: Locals, ghost r: State)
    requires Agrees(s, x, st) && x.i < |s|
    ensures y.i > x.i && Agrees(s, y, r) && Run(w, s, r) == Run(w, s, st)
  {
    hide Run, Copied, Step;
    if x.dollar.Some? {
      RunStep(w, s, st);
      y, r := ReadDollar(w, s, x, st);
    } else if x.inSingle {
      RunStep(w, s, st);
      y, r := ReadSingle(w, s, x, st);
    } else if x.inDouble {
      RunStep(w, s, st);
      y, r := ReadDouble(w, s, x, st);
    } else {
      if st.mode == Line { LineOver(w, s, st); }
      ghost var now := st.(mode := Code);
      var comment, copied, left := CopyComment(w, s, x.i, x.cur, now);
      if comment.Some? {
        CopyOn(s, st.start, x.i, x.cur, s[x.i..comment.value.0]);
        y := x.(cur := copied, i := comment.value.0, openComment := !comment.value.1);
        r := now.(at := y.i, mode := left);
      } else if s[x.i] == ';' {
        RunStep(w, s, now);
        y, r := ReadSemicolon(w, s, x, now);
      } else if s[x.i] == '$' {
        RunStep(w, s, now);
        y, r := ReadOpening(w, s, x, now);
      } else {
        RunStep(w, s, now);
        y, r := ReadCode(w, s, x, now);
      }
    }
  }

  /** Split a text into its statements, and say whether the last of them is finished. */
  method ScanStatements(w: Letters, s: string) returns (out: seq<string>, complete: bool)
    ensures out == Split(w, s)
    ensures complete <==> Complete(w, s)
  {
    hide Run, Trim, Copied;
    CopyNone(s, 0);
    var x := Locals(0, "", false, false, false, None, false, false, false, []);
    ghost var st := FRESH;
    while x.i < |s|
      invariant Agrees(s, x, st) && Run(w, s, FRESH) == Run(w, s, st)
      decreases |s| - x.i
    {
      x, st := ReadNext(w, s, x, st);
    }
    CopyDone(s, st.start, x.i, x.cur);
    RunDone(w, s, st);
    var open := x.inSingle || x.inDouble || x.dollar.Some? || x.openComment;
    out := if x.hasCode then x.out + [Trim(x.cur)] else x.out;
    assert x.out + [] == x.out;
    complete := x.terminated && !open;
  }

  lemma RunDone(w: Letters, s: string, st: State)
    requires Reading(s, st) && st.at >= |s|
    ensures Run(w, s, st) == st
  {
  }
}
