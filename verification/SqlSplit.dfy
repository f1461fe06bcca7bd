/** What splitting promises: parts split on their own, statements stay whole, and the statements of a
    text can be put together again. */
module SqlSplit {
  import opened Bytes
  import opened SqlScan
  import opened SqlLaws

  // Parts split on their own ---------------------------------------------------------------------

  /** Only an escape at the very end reaches past the text, and strings and dollar bodies are code. */
  predicate Sound(s: string, st: State) {
    && Reading(s, st)
    && (st.at <= |s| || st.mode.Single?)
    && (st.mode.Single? || st.mode.Double? || st.mode.Dollar? ==> st.code)
  }

  lemma {:induction false} RunSound(w: Letters, s: string, st: State)
    requires Sound(s, st)
    ensures Sound(s, Run(w, s, st))
    decreases |s| - st.at
  {
    if st.at < |s| { RunSound(w, s, Step(w, s, st)); }
  }

  function FreshAt(n: nat, out: seq<string>): State { State(n, Code, n, false, out) }

  /** A semicolon after a text that ends outside cuts there. */
  lemma ToSemicolon(w: Letters, a: string, b: string)
    requires EndsOutside(w, a)
    ensures Run(w, a + (";" + b), FRESH) == Run(w, a + (";" + b), FreshAt(|a| + 1, Split(w, a)))
  {
    hide Trim;
    var s, st := a + (";" + b), Run(w, a, FRESH);
    RunSound(w, a, FRESH);
    NeutralApart(a, ";" + b);
    RunBefore(w, a, ";" + b, FRESH);
    assert s[st.start..|a|] == a[st.start..|a|];
    assert Step(w, s, st) == FreshAt(|a| + 1, Split(w, a));
  }

  /** So what follows it reads as it would alone. */
  lemma AfterSemicolon(w: Letters, a: string, b: string)
    requires EndsOutside(w, a)
    ensures Moved(Run(w, a + ";" + b, FRESH), Run(w, b, FRESH), a + ";", |a| + 1, Split(w, a))
    ensures Split(w, a + ";" + b) == Split(w, a) + Split(w, b)
  {
    hide Run, Trim;
    assert a + (";" + b) == (a + ";") + b;
    ToSemicolon(w, a, b);
    RunAfter(w, a + ";", b, FreshAt(|a| + 1, Split(w, a)), FRESH, |a| + 1, Split(w, a));
  }

  /** A text, a semicolon and another text: the statements of the one, then those of the other. */
  lemma SplitConcat(w: Letters, a: string, b: string)
    requires EndsOutside(w, a)
    ensures Split(w, a + ";" + b) == Split(w, a) + Split(w, b)
    ensures EndsOutside(w, a + ";" + b) == EndsOutside(w, b)
  {
    hide Run;
    AfterSemicolon(w, a, b);
  }

  /** Every text can be added behind a semicolon without changing what comes before. */
  ghost predicate Composes(w: Letters, a: string) {
    forall b {:trigger Split(w, b)} :: Split(w, a + ";" + b) == Split(w, a) + Split(w, b)
  }

  lemma OneWord(w: Letters)
    ensures Split(w, "z") == ["z"]
  {
    assert Run(w, "z", FRESH) == State(1, Code, 0, true, []);
    assert "z"[0..1] == "z";
  }

  lemma NoCut(w: Letters, a: string)
    requires !EndsOutside(w, a)
    ensures |Split(w, a + ";" + "z")| == |Split(w, a)|
  {
    hide Trim;
    var s, st := a + ";" + "z", Run(w, a, FRESH);
    RunSound(w, a, FRESH);
    assert a + ";z" == s;
    NeutralApart(a, ";z");
    RunBefore(w, a, ";z", FRESH);
    assert s[|a|] == ';' && s[|a| + 1] == 'z';
    ReadOn(w, s, st);
  }

  lemma OpenNext(w: Letters, s: string, i: nat, m: Mode)
    requires i < |s| && (s[i] == ';' || s[i] == 'z') && m != Code
    ensures var r := Next(w, s, i, m); r.Move? && r.mode == m && (r.code ==> m.Single? || m.Double?)
  {
  }

  lemma {:induction false} ReadOn(w: Letters, s: string, st: State)
    requires Reading(s, st) && st.mode != Code
    requires forall i {:trigger s[i]} :: st.at <= i < |s| ==> s[i] == ';' || s[i] == 'z'
    requires st.mode.Single? || st.mode.Double? ==> st.code
    ensures var r := Run(w, s, st); r.out == st.out && r.code == st.code
    decreases |s| - st.at
  {
    hide Next;
    if st.at < |s| {
      OpenNext(w, s, st.at, st.mode);
      ReadOn(w, s, Step(w, s, st));
    }
  }

  /** Exactly the texts that end outside every quote, dollar body and comment compose. */
  lemma ComposesIff(w: Letters, a: string)
    ensures Composes(w, a) <==> EndsOutside(w, a)
  {
    hide Split, EndsOutside;
    if EndsOutside(w, a) {
      forall b ensures Split(w, a + ";" + b) == Split(w, a) + Split(w, b) { SplitConcat(w, a, b); }
    } else {
      NoCut(w, a);
      OneWord(w);
      assert Split(w, a + ";" + "z") != Split(w, a) + Split(w, "z");
    }
  }

  // Statements stay whole ------------------------------------------------------------------------

  /** The state where the current statement ends. */
  function Seek(w: Letters, s: string, st: State): (r: State)
    requires Reading(s, st)
    ensures Reading(s, r) && r.start == st.start && r.out == st.out && r.at >= st.at
    ensures r.at < |s| ==> Next(w, s, r.at, r.mode).Cut?
    decreases |s| - st.at
  {
    if st.at >= |s| || Next(w, s, st.at, st.mode).Cut? then st else Seek(w, s, Step(w, s, st))
  }

  function EndOf(s: string, r: State): nat { if r.at < |s| then r.at else |s| }

  lemma CutIsSemicolon(w: Letters, s: string, i: nat, m: Mode)
    requires i < |s| && Next(w, s, i, m).Cut?
    ensures m == Code && s[i] == ';'
  {
  }

  lemma {:induction false} SeekIsRun(w: Letters, s: string, st: State)
    requires Reading(s, st) && st.start <= EndOf(s, Seek(w, s, st))
    ensures var r := Seek(w, s, st);
            Run(w, s, st) == Run(w, s, r) && Run(w, s[..EndOf(s, r)], st) == r
    decreases |s| - st.at
  {
    hide Next, Step;
    var r := Seek(w, s, st);
    var k := EndOf(s, r);
    assert s == s[..k] + s[k..];
    if r.at < |s| { CutIsSemicolon(w, s, r.at, r.mode); }
    if st.at < |s| && !Next(w, s, st.at, st.mode).Cut? {
      assert NeutralFirst(s[k..]);
      NeutralApart(s[..k], s[k..]);
      StepBefore(w, s[..k], s[k..], st);
      SeekIsRun(w, s, Step(w, s, st));
    } else if st.at >= |s| {
      assert s[..k] == s;
    }
  }

  lemma PieceRun(w: Letters, s: string, n: nat, out: seq<string>)
    requires n <= |s| && (n == 0 || s[n - 1] == ';')
    ensures var r := Seek(w, s, FreshAt(n, out)); var k := EndOf(s, r);
            n <= k <= |s| && Moved(r, Run(w, s[n..k], FRESH), s[..n], n, out)
  {
    hide Run, Step, Next, Seek, Trim, Moved, Finish, Neutral, AllWhite;
    var st := FreshAt(n, out);
    var r := Seek(w, s, st);
    var k := EndOf(s, r);
    SeekIsRun(w, s, st);
    Rejoined(s, n, k);
    FreshMoved(s[..n], out);
    LastIs(s, n);
    RunAfter(w, s[..n], s[n..k], st, FRESH, n, out);
  }

  lemma Rejoined(s: string, n: nat, k: nat)
    requires n <= k <= |s|
    ensures s[..n] + s[n..k] == s[..k]
  {
  }

  lemma FreshMoved(u: string, out: seq<string>)
    ensures Moved(FreshAt(|u|, out), FRESH, u, |u|, out)
  {
    assert out + [] == out;
  }

  lemma LastIs(s: string, n: nat)
    requires n <= |s| && (n == 0 || s[n - 1] == ';')
    ensures NeutralLast(s[..n])
  {
  }

  lemma NothingMore(out: seq<string>, more: seq<string>)
    requires out == out + more
    ensures more == []
  {
    assert |out + more| == |out| + |more|;
  }

  /** The text of one statement, on its own, reads as it did in its place. */
  lemma PieceAlone(w: Letters, s: string, n: nat, out: seq<string>)
    requires n <= |s| && (n == 0 || s[n - 1] == ';')
    ensures var r := Seek(w, s, FreshAt(n, out)); var k := EndOf(s, r);
            && n <= k <= |s|
            && Run(w, s[n..k], FRESH).mode == r.mode
            && Split(w, s[n..k]) == Statement(s, n, k, r.code)
  {
    hide Run, Step, Next, Seek, Trim;
    var r := Seek(w, s, FreshAt(n, out));
    var p := s[n..EndOf(s, r)];
    PieceRun(w, s, n, out);
    NothingMore(out, Run(w, p, FRESH).out);
    assert p[0..|p|] == p;
    assert [] + Statement(p, 0, |p|, r.code) == Statement(p, 0, |p|, r.code);
  }

  /** No white space at either end. */
  predicate Bare(q: string) { q != [] ==> !White(q[0]) && !White(q[|q| - 1]) }

  lemma {:induction false} TrimBare(s: string)
    ensures Bare(Trim(s))
    decreases |s|
  {
    if s != [] && White(s[0]) { TrimBare(s[1..]); } else { TrimEndBare(s); }
  }

  lemma {:induction false} TrimEndBare(s: string)
    requires s == [] || !White(s[0])
    ensures Bare(TrimEnd(s))
    decreases |s|
  {
    if s != [] && White(s[|s| - 1]) { TrimEndBare(s[..|s| - 1]); }
  }

  /** The statements can be told apart again: each is bare and splits as itself, and all but the last
      end outside once a newline closes a comment at their end. */
  predicate Separate(w: Letters, qs: seq<string>, last: bool) {
    forall i {:trigger qs[i]} :: 0 <= i < |qs| ==>
      && Split(w, qs[i]) == [qs[i]] && Bare(qs[i])
      && ((last && i == |qs| - 1) || EndsOutside(w, qs[i] + "\n"))
  }

  lemma OutsideTrimmed(w: Letters, p: string)
    requires EndsOutside(w, p)
    ensures EndsOutside(w, Trim(p) + "\n")
  {
    hide Trim, Next;
    var u, t := Trimmed(p);
    var q := Trim(p);
    assert p == u + (q + t);
    SplitWhiteFront(w, u, q + t);
    NeutralApart(q, t);
    RunBefore(w, q, t, FRESH);
    var st := Run(w, q, FRESH);
    RunWhite(w, q + t, st);
    assert st.mode == Code || st.mode == Line;
    RunSound(w, q, FRESH);
    NeutralApart(q, "\n");
    RunBefore(w, q, "\n", FRESH);
    WhiteNext(w, q + "\n", |q|, st.mode);
  }

  lemma {:induction false} Pieces(w: Letters, s: string, n: nat, out: seq<string>)
    requires n <= |s| && (n == 0 || s[n - 1] == ';') && Separate(w, out, false)
    ensures Separate(w, Finish(s, Run(w, s, FreshAt(n, out))), true)
    decreases |s| - n
  {
    hide Run, Trim, Split, EndsOutside, Next, Bare;
    var r := Seek(w, s, FreshAt(n, out));
    var k := EndOf(s, r);
    TrimBare(s[n..k]);
    PieceAlone(w, s, n, out);
    SeekIsRun(w, s, FreshAt(n, out));
    SplitTrimmed(w, s[n..k]);
    var more := out + Statement(s, n, k, r.code);
    if k < |s| {
      CutIsSemicolon(w, s, k, r.mode);
      Outside(w, s[n..k]);
      OutsideTrimmed(w, s[n..k]);
      assert Separate(w, more, false);
      RunCut(w, s, r);
      Pieces(w, s, k + 1, more);
    } else {
      RunEnd(w, s, r);
    }
  }

  lemma Outside(w: Letters, s: string)
    ensures EndsOutside(w, s) <==> Run(w, s, FRESH).mode == Code
  {
  }

  lemma RunCut(w: Letters, s: string, r: State)
    requires Reading(s, r) && r.at < |s| && Next(w, s, r.at, r.mode).Cut?
    ensures Run(w, s, r) == Run(w, s, FreshAt(r.at + 1, r.out + Statement(s, r.start, r.at, r.code)))
  {
  }

  lemma RunEnd(w: Letters, s: string, r: State)
    requires Reading(s, r) && r.at >= |s|
    ensures Run(w, s, r) == r
  {
  }

  lemma SplitSeparate(w: Letters, s: string)
    ensures Separate(w, Split(w, s), true)
  {
    Pieces(w, s, 0, []);
  }

  /** Splitting a statement gives that statement; it is not empty and has no white space at its ends. */
  lemma StatementWhole(w: Letters, s: string, q: string)
    requires q in Split(w, s)
    ensures Split(w, q) == [q]
    ensures q != [] && !White(q[0]) && !White(q[|q| - 1])
  {
    assert Split(w, []) == [];
    hide Split;
    SplitSeparate(w, s);
  }

  /** Only a semicolon that stands outside splits: without one the text is one statement, trimmed, or
      none. */
  lemma SplitUncut(w: Letters, s: string)
    requires forall k {:trigger s[k]} :: 0 <= k < |s| && s[k] == ';' ==> !EndsOutside(w, s[..k])
    ensures Split(w, s) == [] || Split(w, s) == [Trim(s)]
  {
    hide Run, Trim, Next;
    var r := Seek(w, s, FreshAt(0, []));
    var k := EndOf(s, r);
    SeekIsRun(w, s, FreshAt(0, []));
    assert FreshAt(0, []) == FRESH;
    if k < |s| { CutIsSemicolon(w, s, k, r.mode); }
    PieceAlone(w, s, 0, []);
    assert s[0..|s|] == s;
  }

  // And go together again ------------------------------------------------------------------------

  /** Statements as one text, each but the last closed by a newline and a semicolon. */
  function Join(qs: seq<string>): string {
    if qs == [] then "" else if |qs| == 1 then qs[0] else qs[0] + "\n" + ";" + Join(qs[1..])
  }

  lemma {:induction false} SplitJoin(w: Letters, qs: seq<string>)
    requires Separate(w, qs, true)
    ensures Split(w, Join(qs)) == qs
    decreases |qs|
  {
    hide EndsOutside;
    if |qs| > 1 {
      hide Split;
      SplitJoin(w, qs[1..]);
      SplitConcat(w, qs[0] + "\n", Join(qs[1..]));
      SplitWhiteBack(w, qs[0], "\n");
      assert qs == [qs[0]] + qs[1..];
    } else if |qs| == 1 {
      assert qs == [qs[0]];
    } else {
      assert Split(w, "") == [];
    }
  }

  /** Nothing is lost by splitting: the statements joined split the same way. */
  lemma SplitRound(w: Letters, s: string)
    ensures Split(w, Join(Split(w, s))) == Split(w, s)
  {
    hide Split;
    SplitSeparate(w, s);
    SplitJoin(w, Split(w, s));
  }

  // Complete input -------------------------------------------------------------------------------

  lemma {:induction false} StartGrows(w: Letters, s: string, st: State)
    requires Reading(s, st)
    ensures Run(w, s, st).start >= st.start
    decreases |s| - st.at
  {
    hide Next, Trim;
    if st.at < |s| { StartGrows(w, s, Step(w, s, st)); }
  }

  /** Where the last semicolon that ended a statement stands. */
  lemma {:induction false} LastCut(w: Letters, s: string, st: State)
    requires Reading(s, st) && Run(w, s, st).start > st.start
    ensures var k := Run(w, s, st).start - 1;
            && st.at <= k < |s| && s[k] == ';'
            && Run(w, s[..k], st).mode == Code
    decreases |s| - st.at
  {
    hide Next, Trim;
    var next := Step(w, s, st);
    var end := Run(w, s, st);
    if Next(w, s, st.at, st.mode).Cut? && end.start == next.start {
      CutIsSemicolon(w, s, st.at, st.mode);
    } else {
      StartGrows(w, s, next);
      LastCut(w, s, next);
      var k := end.start - 1;
      assert s == s[..k] + s[k..];
      NeutralApart(s[..k], s[k..]);
      StepBefore(w, s[..k], s[k..], st);
    }
  }

  /** A semicolon at `k` outside every quote, dollar body and comment, with only white space and
      comments behind it. */
  predicate EndsAt(w: Letters, s: string, k: nat)
    requires k < |s|
  {
    var b := s[k + 1..];
    && s[k] == ';' && EndsOutside(w, s[..k])
    && Split(w, b) == [] && (Run(w, b, FRESH).mode == Code || Run(w, b, FRESH).mode == Line)
  }

  /** Without a semicolon nothing is split off. */
  lemma {:induction false} NoOutYet(w: Letters, s: string, st: State)
    requires Reading(s, st) && (st.start == 0 ==> st.out == [])
    ensures Run(w, s, st).start == 0 ==> Run(w, s, st).out == []
    decreases |s| - st.at
  {
    hide Next, Trim;
    if st.at < |s| { NoOutYet(w, s, Step(w, s, st)); }
  }

  lemma Around(s: string, k: nat)
    requires k < |s| && s[k] == ';'
    ensures s == s[..k] + ";" + s[k + 1..]
  {
  }

  lemma CompleteHasEnd(w: Letters, s: string)
    requires Complete(w, s)
    ensures exists k :: 0 <= k < |s| && EndsAt(w, s, k)
  {
    hide Run, Trim;
    LastCut(w, s, FRESH);
    var k := Run(w, s, FRESH).start - 1;
    Around(s, k);
    AfterSemicolon(w, s[..k], s[k + 1..]);
    NoOutYet(w, s[k + 1..], FRESH);
    assert EndsAt(w, s, k);
  }

  lemma EndCompletes(w: Letters, s: string, k: nat)
    requires k < |s| && EndsAt(w, s, k)
    ensures Complete(w, s)
  {
    hide Run, Trim;
    Around(s, k);
    AfterSemicolon(w, s[..k], s[k + 1..]);
  }

  /** Input is complete exactly when some semicolon ends it. */
  lemma CompleteIff(w: Letters, s: string)
    ensures Complete(w, s) <==> exists k :: 0 <= k < |s| && EndsAt(w, s, k)
  {
    hide Complete, EndsAt;
    if Complete(w, s) { CompleteHasEnd(w, s); }
    if k :| 0 <= k < |s| && EndsAt(w, s, k) { EndCompletes(w, s, k); }
  }
}
