/** Why splitting composes: a token that ends before a semicolon or white space is the same token
    without what follows, and one that begins after them is the same without what precedes. */
module SqlLaws {
  import opened Bytes
  import opened SqlScan

  predicate AllWhite(s: string) { forall i {:trigger s[i]} :: 0 <= i < |s| ==> White(s[i]) }

  predicate NeutralFirst(t: string) { t == [] || Neutral(t[0]) }

  predicate NeutralLast(u: string) { u == [] || Neutral(u[|u| - 1]) }

  // What follows ---------------------------------------------------------------------------------

  /** No dollar sign of `p` is followed by nothing but tag characters. */
  predicate NoOpenTag(p: string) {
    forall i {:trigger p[i]} :: 0 <= i < |p| && p[i] == '$' ==> exists j {:trigger TagChar(p[j])} :: i < j < |p| && !TagChar(p[j])
  }

  predicate AllTag(t: string) { forall i {:trigger t[i]} :: 0 <= i < |t| ==> TagChar(t[i]) }

  /** `t` cannot complete a dollar quote that `p` begins. */
  predicate TagSafe(p: string, t: string) {
    NoOpenTag(p) || t == [] || !(TagChar(t[0]) || t[0] == '$') || AllTag(t)
  }

  /** The last character of `p` and the first of `t` make no token together. */
  predicate Apart(p: string, t: string) {
    || p == [] || t == []
    || (var l, c := p[|p| - 1], t[0];
        && !(l == '-' && c == '-') && !(l == '/' && c == '*') && !(l == '\'' && c == '\'') && !(l == '"' && c == '"')
        && TagSafe(p, t))
  }

  lemma NeutralApart(p: string, t: string)
    requires NeutralFirst(t)
    ensures Apart(p, t) && (t == [] || t[0] != '/')
  {
  }

  lemma {:induction false} TagStops(s: string, i: nat, j: nat)
    requires i <= j < |s| && !TagChar(s[j])
    ensures TagEnd(s, i) <= j
    decreases j - i
  {
    if i < j && TagChar(s[i]) { TagStops(s, i + 1, j); }
  }

  lemma {:induction false} TagWithin(p: string, t: string, i: nat)
    requires i <= |p| && (TagEnd(p, i) < |p| || t == [] || !TagChar(t[0]))
    ensures TagEnd(p + t, i) == TagEnd(p, i)
    decreases |p| - i
  {
    if i < |p| && TagChar(p[i]) { TagWithin(p, t, i + 1); }
  }

  lemma {:induction false} TagRuns(s: string, i: nat)
    requires i <= |s| && forall k {:trigger s[k]} :: i <= k < |s| ==> TagChar(s[k])
    ensures TagEnd(s, i) == |s|
    decreases |s| - i
  {
    if i < |s| { TagRuns(s, i + 1); }
  }

  lemma {:induction false} TagsBefore(s: string, i: nat)
    requires i <= |s|
    ensures forall k {:trigger s[k]} :: i <= k < TagEnd(s, i) ==> TagChar(s[k])
    decreases |s| - i
  {
    if i < |s| && TagChar(s[i]) { TagsBefore(s, i + 1); }
  }

  lemma DelimiterBefore(p: string, t: string, i: nat)
    requires TagSafe(p, t) && i < |p| && p[i] == '$'
    ensures Delimiter(p + t, i) == Delimiter(p, i)
  {
    var j := TagEnd(p, i + 1);
    if NoOpenTag(p) {
      var k :| i < k < |p| && !TagChar(p[k]);
      TagStops(p, i + 1, k);
    }
    if j < |p| || t == [] || !TagChar(t[0]) {
      TagWithin(p, t, i + 1);
      assert (p + t)[i + 1..j] == p[i + 1..j];
    } else {
      TagsBefore(p, i + 1);
      TagRuns(p + t, i + 1);
    }
  }

  lemma NextBefore(w: Letters, p: string, t: string, i: nat, m: Mode)
    requires Apart(p, t) && i < |p|
    requires !(m.Block? && i + 1 == |p| && p[i] == '*' && t != [] && t[0] == '/')
    ensures Next(w, p + t, i, m) == Next(w, p, i, m)
  {
    hide Delimiter, TagSafe, White;
    if p[i] == '$' { DelimiterBefore(p, t, i); }
  }

  lemma StepBefore(w: Letters, p: string, t: string, st: State)
    requires Apart(p, t) && Reading(p, st) && st.at < |p|
    requires !(st.mode.Block? && st.at + 1 == |p| && p[st.at] == '*' && t != [] && t[0] == '/')
    ensures Step(w, p + t, st) == Step(w, p, st)
  {
    hide Next, Apart;
    NextBefore(w, p, t, st.at, st.mode);
    assert (p + t)[st.start..st.at] == p[st.start..st.at];
  }

  lemma OpenBlockStays(w: Letters, p: string, st: State)
    requires Reading(p, st) && st.at + 1 == |p| && st.mode.Block? && p[st.at] == '*'
    ensures Run(w, p, st).mode.Block?
  {
  }

  /** Reading on past a seam is reading up to it first. */
  lemma {:induction false} RunBefore(w: Letters, p: string, t: string, st: State)
    requires Apart(p, t) && Reading(p, st)
    requires t == [] || t[0] != '/' || Run(w, p, st).mode == Code
    ensures Reading(p + t, Run(w, p, st))
    ensures Run(w, p + t, st) == Run(w, p + t, Run(w, p, st))
    decreases |p| - st.at
  {
    hide Step, Apart;
    if st.at < |p| {
      if st.mode.Block? && st.at + 1 == |p| && p[st.at] == '*' { OpenBlockStays(w, p, st); }
      StepBefore(w, p, t, st);
      RunBefore(w, p, t, Step(w, p, st));
    }
  }

  // What precedes --------------------------------------------------------------------------------

  lemma {:induction false} TagAfter(u: string, p: string, i: nat)
    requires i <= |p|
    ensures TagEnd(u + p, |u| + i) == |u| + TagEnd(p, i)
    decreases |p| - i
  {
    if i < |p| && TagChar(p[i]) { TagAfter(u, p, i + 1); }
  }

  lemma DelimiterAfter(u: string, p: string, i: nat)
    requires i < |p|
    ensures Delimiter(u + p, |u| + i) == Delimiter(p, i)
  {
    TagAfter(u, p, i + 1);
    var j := TagEnd(p, i + 1);
    assert (u + p)[|u| + i + 1..|u| + j] == p[i + 1..j];
  }

  lemma EscapeAfter(w: Letters, u: string, p: string, i: nat)
    requires NeutralLast(u) && i < |p|
    ensures OpensEscape(w, u + p, |u| + i) == OpensEscape(w, p, i)
  {
    var s, n := u + p, |u| + i;
    if i == 1 && u != [] {
      assert s[n - 2] == u[|u| - 1];
      assert White(s[n - 2]) ==> !w(s[n - 2]);
    }
    if i == 0 && u != [] {
      assert s[n - 1] == u[|u| - 1];
    }
  }

  lemma NextAfter(w: Letters, u: string, p: string, i: nat, m: Mode)
    requires NeutralLast(u) && i < |p|
    ensures Next(w, u + p, |u| + i, m) == Next(w, p, i, m)
  {
    hide Delimiter, OpensEscape;
    DelimiterAfter(u, p, i);
    EscapeAfter(w, u, p, i);
  }

  /** A state while reading `u + p` as against one while reading `p`: the first statement of `p` may
      begin with white space of `u`. */
  predicate Moved(x: State, y: State, u: string, base: nat, out: seq<string>) {
    && base <= |u| && AllWhite(u[base..])
    && x.at == |u| + y.at && x.mode == y.mode && x.code == y.code && x.out == out + y.out
    && x.start == if y.start == 0 then base else |u| + y.start
  }

  lemma StepAfter(w: Letters, u: string, p: string, x: State, y: State, base: nat, out: seq<string>)
    requires NeutralLast(u) && Moved(x, y, u, base, out) && Reading(p, y) && y.at < |p|
    ensures Reading(u + p, x) && Moved(Step(w, u + p, x), Step(w, p, y), u, base, out)
  {
    hide Next, Trim;
    NextAfter(w, u, p, y.at, y.mode);
    StatementAfter(u, p, x, y, base, out, y.at);
  }

  lemma StatementAfter(u: string, p: string, x: State, y: State, base: nat, out: seq<string>, end: nat)
    requires Moved(x, y, u, base, out) && y.start <= end <= |p|
    ensures Statement(u + p, x.start, |u| + end, x.code) == Statement(p, y.start, end, y.code)
  {
    hide Trim;
    if y.start == 0 {
      assert (u + p)[base..|u| + end] == u[base..] + p[0..end];
      TrimFront(u[base..], p[0..end]);
    } else {
      assert (u + p)[|u| + y.start..|u| + end] == p[y.start..end];
    }
  }

  lemma {:induction false} RunAfter(w: Letters, u: string, p: string, x: State, y: State, base: nat, out: seq<string>)
    requires NeutralLast(u) && Moved(x, y, u, base, out) && Reading(p, y)
    ensures Reading(u + p, x) && Moved(Run(w, u + p, x), Run(w, p, y), u, base, out)
    ensures Finish(u + p, Run(w, u + p, x)) == out + Finish(p, Run(w, p, y))
    decreases |p| - y.at
  {
    hide Step, Trim;
    if y.at < |p| {
      StepAfter(w, u, p, x, y, base, out);
      RunAfter(w, u, p, Step(w, u + p, x), Step(w, p, y), base, out);
    } else {
      StatementAfter(u, p, x, y, base, out, |p|);
      assert x.out + Statement(p, y.start, |p|, y.code) == out + (y.out + Statement(p, y.start, |p|, y.code));
    }
  }

  // White space around a text --------------------------------------------------------------------

  lemma {:induction false} TrimFront(u: string, p: string)
    requires AllWhite(u)
    ensures Trim(u + p) == Trim(p)
    decreases |u|
  {
    if u == [] {
      assert u + p == p;
    } else {
      TrimFront(u[1..], p);
      assert (u + p)[1..] == u[1..] + p;
    }
  }

  lemma {:induction false} TrimEndBack(p: string, t: string)
    requires AllWhite(t)
    ensures TrimEnd(p + t) == TrimEnd(p)
    decreases |t|
  {
    if t == [] {
      assert p + t == p;
    } else {
      TrimEndBack(p, t[..|t| - 1]);
      assert (p + t)[..|p + t| - 1] == p + t[..|t| - 1];
    }
  }

  lemma {:induction false} TrimBack(p: string, t: string)
    requires AllWhite(t)
    ensures Trim(p + t) == Trim(p)
    decreases |p|
  {
    if p != [] && White(p[0]) {
      TrimBack(p[1..], t);
      assert (p + t)[1..] == p[1..] + t;
    } else if p == [] {
      assert p + t == t + [] && t + [] == t;
      TrimFront(t, []);
    } else {
      TrimEndBack(p, t);
    }
  }

  /** What trimming takes off. */
  lemma {:induction false} Trimmed(s: string) returns (u: string, t: string)
    ensures AllWhite(u) && AllWhite(t) && s == u + Trim(s) + t
    decreases |s|
  {
    if s != [] && White(s[0]) {
      u, t := Trimmed(s[1..]);
      u := [s[0]] + u;
      assert s == [s[0]] + s[1..];
    } else {
      u := [];
      t := TrimmedEnd(s);
      assert u + Trim(s) == Trim(s);
    }
  }

  lemma {:induction false} TrimmedEnd(s: string) returns (t: string)
    ensures AllWhite(t) && s == TrimEnd(s) + t
    decreases |s|
  {
    if s != [] && White(s[|s| - 1]) {
      t := TrimmedEnd(s[..|s| - 1]);
      t := t + [s[|s| - 1]];
      assert s == s[..|s| - 1] + [s[|s| - 1]];
    } else {
      t := [];
    }
  }

  /** White space opens nothing, closes at most a line comment, and is no code. */
  lemma WhiteNext(w: Letters, s: string, i: nat, m: Mode)
    requires i < |s| && White(s[i])
    ensures Next(w, s, i, m) == Move(1, if m == Line && s[i] == '\n' then Code else m, false)
  {
  }

  lemma {:induction false} RunWhite(w: Letters, s: string, st: State)
    requires Reading(s, st) && forall i {:trigger s[i]} :: st.at <= i < |s| ==> White(s[i])
    ensures var r := Run(w, s, st);
            && r.start == st.start && r.code == st.code && r.out == st.out
            && (r.mode == st.mode || (st.mode == Line && r.mode == Code))
    decreases |s| - st.at
  {
    hide Next, White;
    if st.at < |s| {
      WhiteNext(w, s, st.at, st.mode);
      RunWhite(w, s, Step(w, s, st));
    }
  }

  lemma SplitWhiteBack(w: Letters, p: string, t: string)
    requires AllWhite(t)
    ensures Split(w, p + t) == Split(w, p)
  {
    hide Run, Trim, Apart;
    var st := Run(w, p, FRESH);
    NeutralApart(p, t);
    RunBefore(w, p, t, FRESH);
    RunWhite(w, p + t, st);
    if st.code {
      assert (p + t)[st.start..] == p[st.start..] + t;
      TrimBack(p[st.start..], t);
      assert (p + t)[st.start..|p + t|] == (p + t)[st.start..] && p[st.start..|p|] == p[st.start..];
    }
  }

  lemma {:induction false} WhiteRead(w: Letters, u: string, p: string, i: nat)
    requires AllWhite(u) && i <= |u|
    ensures Reading(u + p, FRESH.(at := i)) && Reading(u + p, FRESH.(at := |u|))
    ensures Run(w, u + p, FRESH.(at := i)) == Run(w, u + p, FRESH.(at := |u|))
    decreases |u| - i
  {
    hide Next, White;
    if i < |u| {
      assert (u + p)[i] == u[i];
      WhiteNext(w, u + p, i, Code);
      assert Step(w, u + p, FRESH.(at := i)) == FRESH.(at := i + 1);
      WhiteRead(w, u, p, i + 1);
    }
  }

  lemma SplitWhiteFront(w: Letters, u: string, p: string)
    requires AllWhite(u)
    ensures Split(w, u + p) == Split(w, p)
    ensures EndsOutside(w, u + p) == EndsOutside(w, p)
  {
    hide Run, White;
    WhiteRead(w, u, p, 0);
    assert u[0..] == u;
    assert NeutralLast(u);
    RunAfter(w, u, p, FRESH.(at := |u|), FRESH, 0, []);
    assert [] + Split(w, p) == Split(w, p);
  }

  /** White space around a text does not change its statements. */
  lemma SplitTrimmed(w: Letters, s: string)
    ensures Split(w, Trim(s)) == Split(w, s)
  {
    hide Trim, Split;
    var u, t := Trimmed(s);
    SplitWhiteBack(w, u + Trim(s), t);
    SplitWhiteFront(w, u, Trim(s));
  }
}
