/** Which texts hold anything besides white space and comments. */
module SqlCode {
  import opened Bytes
  import opened SqlScan
  import opened SqlLaws
  import opened SqlSplit
  import opened SqlTokens

  /** Whether any token is more than white space and comment, read from `i` on in mode `m`. */
  predicate AnyCode(w: Letters, s: string, i: nat, m: Mode)
    decreases |s| - i
  {
    i < |s| &&
    match Next(w, s, i, m)
    case Cut => AnyCode(w, s, i + 1, Code)
    case Move(length, mode, code) => code || AnyCode(w, s, i + length, mode)
  }

  lemma {:induction false} RunCode(w: Letters, s: string, st: State)
    requires Reading(s, st)
    ensures Finish(s, Run(w, s, st)) == [] <==> st.out == [] && !st.code && !AnyCode(w, s, st.at, st.mode)
    decreases |s| - st.at
  {
    hide Next, Trim;
    if st.at < |s| { RunCode(w, s, Step(w, s, st)); }
  }

  lemma BlankIff(w: Letters, s: string)
    ensures Split(w, s) == [] <==> !AnyCode(w, s, 0, Code)
  {
    RunCode(w, s, FRESH);
  }

  /** Code behind a text that ends outside is code of the whole. */
  lemma CodeBehind(w: Letters, a: string, t: string)
    requires EndsOutside(w, a) && Apart(a, t)
    ensures Split(w, a + t) == [] <==> Split(w, a) == [] && !AnyCode(w, a + t, |a|, Code)
  {
    hide Apart, Run, Next, AnyCode;
    var st := Run(w, a, FRESH);
    RunBefore(w, a, t, FRESH);
    RunSound(w, a, FRESH);
    LengthRead(w, a, FRESH);
    RunCode(w, a + t, st);
    NothingOut(a, st);
  }

  lemma NothingOut(s: string, st: State)
    requires Reading(s, st)
    ensures Finish(s, st) == [] <==> st.out == [] && !st.code
  {
  }

  /** A quote is code, and so is what stands between quotes. */
  lemma QuoteIsCode(w: Letters, a: string, q: char, y: string)
    requires EndsOutside(w, a) && (q == '\'' || q == '"') && (a == [] || a[|a| - 1] != q)
    ensures Split(w, a + [q] + y) != []
  {
    hide EndsOutside, Apart;
    var s, t := a + [q] + y, [q] + y;
    assert s == a + t;
    QuoteApart(a, q, t);
    CodeBehind(w, a, t);
    assert s[|a|] == q;
  }

  /** A dollar body is code. */
  lemma DollarIsCode(w: Letters, a: string, tag: string, y: string)
    requires EndsOutside(w, a) && NoOpenTag(a) && Tag(tag)
    ensures Split(w, a + Delim(tag) + y) != []
  {
    hide EndsOutside, Apart, NoOpenTag, Tag, Delimiter;
    var s, t := a + Delim(tag) + y, Delim(tag) + y;
    assert s == a + t;
    DelimLength(tag);
    DollarApart(a, t);
    CodeBehind(w, a, t);
    assert FoundAt(s, Delim(tag), |a|);
    DelimiterIs(s, |a|, tag);
    assert s[|a|] == '$';
  }

  /** Any other character is code exactly if it is neither white space nor a semicolon. */
  lemma PlainIsCode(w: Letters, a: string, c: char)
    requires EndsOutside(w, a) && c != '\'' && c != '"' && c != '$'
    requires a == [] || (!(a[|a| - 1] == '-' && c == '-') && !(a[|a| - 1] == '/' && c == '*'))
    ensures Split(w, a + [c]) == [] <==> Split(w, a) == [] && (White(c) || c == ';')
  {
    hide EndsOutside, White;
    CodeBehind(w, a, [c]);
    assert (a + [c])[|a|] == c;
  }

  lemma {:induction false} LineNoCode(w: Letters, s: string, i: nat)
    requires i <= |s| && forall j {:trigger s[j]} :: i <= j < |s| ==> s[j] != '\n'
    ensures !AnyCode(w, s, i, Line)
    decreases |s| - i
  {
    if i < |s| { LineNoCode(w, s, i + 1); }
  }

  /** A comment to the end of the line is no code. */
  lemma LineIsNoCode(w: Letters, a: string, y: string)
    requires EndsOutside(w, a) && (a == [] || a[|a| - 1] != '-') && NoneOf(y, ['\n'])
    ensures Split(w, a + "--" + y) == [] <==> Split(w, a) == []
  {
    hide EndsOutside, Apart;
    var s, t, n := a + "--" + y, "--" + y, |a|;
    assert s == a + t;
    DashApart(a, t);
    CodeBehind(w, a, t);
    assert s[n] == '-' && s[n + 1] == '-';
    forall j | n + 2 <= j < |s| ensures s[j] != '\n' { assert s[j] == y[j - n - 2]; }
    LineNoCode(w, s, n + 2);
  }

  lemma {:induction false} BlockNoCode(w: Letters, s: string, i: nat, d: nat)
    requires i <= |s| && (Inside(d, s[i..]) || Closing(d, s[i..]))
    ensures !AnyCode(w, s, i, Nested(d))
    decreases |s| - i
  {
    if d == 0 {
      assert |s[i..]| == |s| - i;
    } else if i < |s| {
      var (n, e) := Mark(d, s[i..]);
      assert s[i..][n..] == s[i + n..];
      BlockNoCode(w, s, i + n, e);
    }
  }

  /** Neither is one between slash and star, closed or not. */
  lemma BlockIsNoCode(w: Letters, a: string, y: string)
    requires EndsOutside(w, a) && (Inside(1, y) || Closing(1, y))
    ensures Split(w, a + "/*" + y) == [] <==> Split(w, a) == []
  {
    hide EndsOutside, Apart, Inside, Closing;
    var s, t, n := a + "/*" + y, "/*" + y, |a|;
    assert s == a + t;
    SlashApart(a, t);
    CodeBehind(w, a, t);
    assert s[n] == '/' && s[n + 1] == '*' && s[n + 2..] == y;
    BlockNoCode(w, s, n + 2, 1);
  }
}
