/** What opens and closes strings, quoted identifiers, dollar bodies and comments, said of texts: where
    a text ends outside them all, and which texts hold no code. */
module SqlTokens {
  import opened Bytes
  import opened SqlScan
  import opened SqlLaws
  import opened SqlSplit

  // The mode alone -------------------------------------------------------------------------------

  /** What is open at the end of the text, read from `i` on in mode `m`. */
  function Ends(w: Letters, s: string, i: nat, m: Mode): Mode
    decreases |s| - i
  {
    if i >= |s| then m
    else
      match Next(w, s, i, m)
      case Cut => Ends(w, s, i + 1, Code)
      case Move(length, mode, _) => Ends(w, s, i + length, mode)
  }

  lemma {:induction false} RunEnds(w: Letters, s: string, st: State)
    requires Reading(s, st)
    ensures Run(w, s, st).mode == Ends(w, s, st.at, st.mode)
    decreases |s| - st.at
  {
    hide Next, Trim;
    if st.at < |s| { RunEnds(w, s, Step(w, s, st)); }
  }

  /** A text behind one that ends outside reads on from there. */
  lemma EndsBehind(w: Letters, a: string, t: string)
    requires EndsOutside(w, a) && Apart(a, t)
    ensures EndsOutside(w, a + t) <==> Ends(w, a + t, |a|, Code) == Code
  {
    hide Apart, Run, Next, Ends;
    RunBefore(w, a, t, FRESH);
    RunSound(w, a, FRESH);
    LengthRead(w, a, FRESH);
    RunEnds(w, a + t, Run(w, a, FRESH));
  }

  lemma LengthRead(w: Letters, s: string, st: State)
    requires Reading(s, st)
    ensures Run(w, s, st).at >= |s|
  {
  }

  // Strings and quoted identifiers ---------------------------------------------------------------

  /** The text stays inside quotes `q`: every quote in it is doubled or, with escapes, behind a
      backslash that is not itself escaped. */
  predicate Body(q: char, escapes: bool, y: string) {
    || y == []
    || (escapes && y[0] == '\\' && |y| >= 2 && Body(q, escapes, y[2..]))
    || (!(escapes && y[0] == '\\') && y[0] == q && |y| >= 2 && y[1] == q && Body(q, escapes, y[2..]))
    || (!(escapes && y[0] == '\\') && y[0] != q && Body(q, escapes, y[1..]))
  }

  function Quoting(q: char, escapes: bool): Mode { if q == '\'' then Single(escapes) else Double }

  lemma {:induction false} BodyRead(w: Letters, s: string, i: nat, q: char, escapes: bool, y: string)
    requires (q == '\'' || (q == '"' && !escapes)) && i + |y| <= |s| && s[i..i + |y|] == y && Body(q, escapes, y)
    ensures Ends(w, s, i, Quoting(q, escapes)) == Ends(w, s, i + |y|, Quoting(q, escapes))
    decreases |y|
  {
    if y != [] {
      assert s[i] == y[0];
      var n := if (escapes && y[0] == '\\') || y[0] == q then 2 else 1;
      assert n == 2 ==> s[i + 1] == y[1];
      assert y[n..] == s[i + n..i + n + |y[n..]|];
      BodyRead(w, s, i + n, q, escapes, y[n..]);
    }
  }

  /** The text ends in an `e` or `E` that ends no longer word. */
  predicate LoneE(w: Letters, a: string) {
    && |a| >= 1 && (a[|a| - 1] == 'e' || a[|a| - 1] == 'E')
    && (|a| >= 2 ==> !w(a[|a| - 2]) && a[|a| - 2] != '_' && a[|a| - 2] != '$')
  }

  /** A quote opens a string, with escapes exactly behind a lone `e`; the string is open as long as the
      text stays inside, and the next quote closes it. */
  lemma StringToken(w: Letters, a: string, y: string)
    requires EndsOutside(w, a) && (a == [] || a[|a| - 1] != '\'') && Body('\'', LoneE(w, a), y)
    ensures !EndsOutside(w, a + "'" + y) && EndsOutside(w, a + "'" + y + "'")
  {
    QuoteToken(w, a, '\'', y);
  }

  /** A double quote opens a quoted identifier, without escapes. */
  lemma IdentifierToken(w: Letters, a: string, y: string)
    requires EndsOutside(w, a) && (a == [] || a[|a| - 1] != '"') && Body('"', false, y)
    ensures !EndsOutside(w, a + "\"" + y) && EndsOutside(w, a + "\"" + y + "\"")
  {
    QuoteToken(w, a, '"', y);
  }

  lemma QuoteApart(a: string, q: char, t: string)
    requires (q == '\'' || q == '"') && (a == [] || a[|a| - 1] != q) && t != [] && t[0] == q
    ensures Apart(a, t)
  {
  }

  lemma QuoteRead(w: Letters, a: string, q: char, y: string, z: string)
    requires (q == '\'' || q == '"') && EndsOutside(w, a) && (a == [] || a[|a| - 1] != q)
    requires Body(q, q == '\'' && LoneE(w, a), y)
    ensures var s := a + [q] + y + z;
            EndsOutside(w, s) <==> Ends(w, s, |a| + 1 + |y|, Quoting(q, q == '\'' && LoneE(w, a))) == Code
  {
    hide EndsOutside, Body, Apart, Ends, LoneE;
    var s, t := a + [q] + y + z, [q] + y + z;
    assert s == a + t;
    QuoteApart(a, q, t);
    EndsBehind(w, a, t);
    OpensQuote(w, a, q, s);
    assert s[|a| + 1..|a| + 1 + |y|] == y;
    BodyRead(w, s, |a| + 1, q, q == '\'' && LoneE(w, a), y);
  }

  lemma QuoteToken(w: Letters, a: string, q: char, y: string)
    requires (q == '\'' || q == '"') && EndsOutside(w, a) && (a == [] || a[|a| - 1] != q)
    requires Body(q, q == '\'' && LoneE(w, a), y)
    ensures !EndsOutside(w, a + [q] + y) && EndsOutside(w, a + [q] + y + [q])
  {
    hide EndsOutside, Body, LoneE;
    QuoteRead(w, a, q, y, []);
    assert a + [q] + y + [] == a + [q] + y;
    QuoteRead(w, a, q, y, [q]);
    ClosesQuote(w, a + [q] + y + [q], q, q == '\'' && LoneE(w, a));
  }

  lemma OpensQuote(w: Letters, a: string, q: char, s: string)
    requires (q == '\'' || q == '"') && |a| < |s| && s[..|a|] == a && s[|a|] == q
    ensures Ends(w, s, |a|, Code) == Ends(w, s, |a| + 1, Quoting(q, q == '\'' && LoneE(w, a)))
  {
    hide Delimiter;
    assert |a| >= 1 ==> s[|a| - 1] == a[|a| - 1];
    assert |a| >= 2 ==> s[|a| - 2] == a[|a| - 2];
  }

  lemma ClosesQuote(w: Letters, s: string, q: char, e: bool)
    requires (q == '\'' || (q == '"' && !e)) && s != [] && s[|s| - 1] == q
    ensures Ends(w, s, |s| - 1, Quoting(q, e)) == Code
  {
  }

  /** Whatever follows an opening quote either stays inside, or closes at a quote that is not doubled,
      or ends in a backslash with nothing to escape. */
  lemma {:induction false} BodyOrEnd(q: char, escapes: bool, y: string) returns (k: nat)
    requires q == '\'' || q == '"'
    ensures k <= |y| && Body(q, escapes, y[..k])
    ensures k < |y| ==>
              || (y[k] == q && (k + 1 < |y| ==> y[k + 1] != q))
              || (escapes && y[k] == '\\' && k + 1 == |y|)
    decreases |y|
  {
    if y == [] {
      k := 0;
    } else {
      var n := if (escapes && y[0] == '\\') || y[0] == q then 2 else 1;
      if n > |y| || (n == 2 && !(escapes && y[0] == '\\') && y[1] != q) {
        k := 0;
        assert y[..0] == [];
      } else {
        k := BodyOrEnd(q, escapes, y[n..]);
        assert y[..n + k][n..] == y[n..][..k];
        assert y[..n + k][0] == y[0] && (n == 2 ==> y[..n + k][1] == y[1]);
        k := n + k;
      }
    }
  }

  predicate NoneOf(y: string, cs: string) { forall i {:trigger y[i]} :: 0 <= i < |y| ==> y[i] !in cs }

  lemma {:induction false} PlainBody(q: char, escapes: bool, y: string, z: string)
    requires NoneOf(y, [q, '\\']) && Body(q, escapes, z)
    ensures Body(q, escapes, y + z)
    decreases |y|
  {
    if y == [] {
      assert y + z == z;
    } else {
      PlainBody(q, escapes, y[1..], z);
      assert (y + z)[1..] == y[1..] + z;
    }
  }

  /** A backslash keeps the quote behind it from closing a string exactly when the string opened behind
      a lone `e`. */
  lemma EscapeDecides(w: Letters, a: string, y: string)
    requires EndsOutside(w, a) && (a == [] || a[|a| - 1] != '\'') && NoneOf(y, ['\'', '\\'])
    ensures EndsOutside(w, a + "'" + y + "\\'") <==> !LoneE(w, a)
  {
    hide EndsOutside, LoneE;
    var e := LoneE(w, a);
    if e {
      assert Body('\'', e, "\\'") by { assert "\\'"[2..] == []; }
      PlainBody('\'', e, y, "\\'");
      StringToken(w, a, y + "\\'");
      assert a + "'" + (y + "\\'") == a + "'" + y + "\\'";
    } else {
      assert Body('\'', e, "\\") by { assert "\\"[1..] == []; }
      PlainBody('\'', e, y, "\\");
      StringToken(w, a, y + "\\");
      assert a + "'" + (y + "\\") + "'" == a + "'" + y + "\\'";
    }
  }

  // Dollar bodies --------------------------------------------------------------------------------

  /** ASCII letters, digits and underscores, not starting with a digit. */
  predicate Tag(tag: string) {
    && (forall i {:trigger tag[i]} :: 0 <= i < |tag| ==>
          'a' <= tag[i] <= 'z' || 'A' <= tag[i] <= 'Z' || '0' <= tag[i] <= '9' || tag[i] == '_')
    && (tag == [] || !('0' <= tag[0] <= '9'))
  }

  function Delim(tag: string): string { "$" + tag + "$" }

  predicate FoundAt(s: string, d: string, i: nat) { i + |d| <= |s| && s[i..i + |d|] == d }

  lemma DelimiterIs(s: string, i: nat, tag: string)
    requires i < |s| && s[i] == '$' && Tag(tag)
    ensures Delimiter(s, i) == Some(tag) <==> FoundAt(s, Delim(tag), i)
  {
    var d, n := Delim(tag), i + 1 + |tag|;
    TagsBefore(s, i + 1);
    if FoundAt(s, d, i) {
      assert forall k {:trigger d[k]} :: 0 <= k < |d| ==> s[i + k] == d[k];
      assert s[n] == d[1 + |tag|];
      TagStops(s, i + 1, n);
      forall k | i + 1 <= k < n ensures TagChar(s[k]) { assert d[k - i] == tag[k - i - 1] && s[i + (k - i)] == d[k - i]; }
      TagReaches(s, i + 1, n);
      assert s[i + 1..n] == d[1..1 + |tag|];
      assert tag != [] ==> s[i + 1] == tag[0];
    }
    if Delimiter(s, i) == Some(tag) {
      var j := TagEnd(s, i + 1);
      assert s[i + 1..j] == tag && s[j] == '$';
      assert s[i..i + |d|] == [s[i]] + s[i + 1..j] + [s[j]];
    }
  }

  lemma {:induction false} TagReaches(s: string, i: nat, j: nat)
    requires i <= j <= |s| && forall k {:trigger s[k]} :: i <= k < j ==> TagChar(s[k])
    ensures TagEnd(s, i) >= j
    decreases j - i
  {
    if i < j { TagReaches(s, i + 1, j); }
  }

  lemma {:induction false} DollarRead(w: Letters, s: string, i: nat, tag: string, k: nat)
    requires Tag(tag) && i <= k <= |s| && forall j: nat {:trigger FoundAt(s, Delim(tag), j)} :: i <= j < k ==> !FoundAt(s, Delim(tag), j)
    ensures Ends(w, s, i, Dollar(tag)) == Ends(w, s, k, Dollar(tag))
    decreases k - i
  {
    hide Delimiter, FoundAt, Delim, Tag;
    if i < k {
      if s[i] == '$' { DelimiterIs(s, i, tag); }
      assert !FoundAt(s, Delim(tag), i);
      DollarRead(w, s, i + 1, tag, k);
    }
  }

  lemma DollarOpens(w: Letters, s: string, i: nat, tag: string)
    requires Tag(tag) && FoundAt(s, Delim(tag), i)
    ensures i + |tag| + 2 <= |s|
    ensures Ends(w, s, i, Code) == Ends(w, s, i + |tag| + 2, Dollar(tag))
    ensures Ends(w, s, i, Dollar(tag)) == Ends(w, s, i + |tag| + 2, Code)
  {
    hide Delimiter, Tag;
    assert s[i] == Delim(tag)[0];
    DelimiterIs(s, i, tag);
  }

  /** `$tag$` opens a dollar body, for a tag of letters, digits and underscores that does not start with
      a digit; the body is open until the first `$tag$` behind it, whatever else it holds. */
  lemma DollarToken(w: Letters, a: string, tag: string, y: string)
    requires EndsOutside(w, a) && NoOpenTag(a) && Tag(tag)
    ensures (forall j: nat {:trigger FoundAt(y, Delim(tag), j)} :: !FoundAt(y, Delim(tag), j)) ==> !EndsOutside(w, a + Delim(tag) + y)
    ensures (forall j: nat {:trigger FoundAt(y + Delim(tag), Delim(tag), j)} :: j < |y| ==> !FoundAt(y + Delim(tag), Delim(tag), j)) ==>
              EndsOutside(w, a + Delim(tag) + y + Delim(tag))
  {
    hide EndsOutside, NoOpenTag, Tag, Delim, Ends;
    var d := Delim(tag);
    if forall j: nat {:trigger FoundAt(y, d, j)} :: !FoundAt(y, d, j) {
      DollarBehind(w, a, tag, y, |y|);
      EndsAtEnd(w, a + d + y, Dollar(tag));
    }
    if forall j: nat {:trigger FoundAt(y + d, d, j)} :: j < |y| ==> !FoundAt(y + d, d, j) {
      DollarBehind(w, a, tag, y + d, |y|);
      var s := a + d + (y + d);
      assert s == a + d + y + d;
      assert FoundAt(s, d, |a| + |d| + |y|);
      DollarOpens(w, s, |a| + |d| + |y|, tag);
      DelimLength(tag);
      EndsAtEnd(w, s, Code);
    }
  }

  lemma DelimLength(tag: string)
    ensures |Delim(tag)| == |tag| + 2 && Delim(tag)[0] == '$'
  {
  }

  lemma EndsAtEnd(w: Letters, s: string, m: Mode)
    ensures Ends(w, s, |s|, m) == m
  {
  }

  lemma DollarBehind(w: Letters, a: string, tag: string, y: string, k: nat)
    requires EndsOutside(w, a) && NoOpenTag(a) && Tag(tag) && k <= |y|
    requires forall j: nat {:trigger FoundAt(y, Delim(tag), j)} :: j < k ==> !FoundAt(y, Delim(tag), j)
    ensures var s := a + Delim(tag) + y;
            EndsOutside(w, s) <==> Ends(w, s, |a| + |Delim(tag)| + k, Dollar(tag)) == Code
  {
    hide EndsOutside, NoOpenTag, Tag, Delim, Ends;
    var d := Delim(tag);
    var s := a + d + y;
    DelimLength(tag);
    assert s == a + (d + y);
    DollarApart(a, d + y);
    EndsBehind(w, a, d + y);
    assert FoundAt(s, d, |a|);
    DollarOpens(w, s, |a|, tag);
    var n := |a| + |d|;
    forall j: nat | n <= j < n + k ensures !FoundAt(s, d, j) { FoundBehind(s, n, y, d, j); }
    DollarRead(w, s, n, tag, n + k);
  }

  lemma DollarApart(a: string, t: string)
    requires NoOpenTag(a) && t != [] && t[0] == '$'
    ensures Apart(a, t)
  {
  }

  lemma FoundBehind(s: string, n: nat, y: string, d: string, j: nat)
    requires n <= j && n <= |s| && s[n..] == y
    ensures FoundAt(s, d, j) <==> FoundAt(y, d, j - n)
  {
    if j + |d| <= |s| {
      var x, z := s[j..j + |d|], y[j - n..j - n + |d|];
      assert |x| == |z|;
      forall k | 0 <= k < |x| ensures x[k] == z[k] { assert s[n..][j - n + k] == s[j + k]; }
      assert x == z;
    }
  }

  // Comments -------------------------------------------------------------------------------------

  lemma {:induction false} LineRead(w: Letters, s: string, i: nat, k: nat)
    requires i <= k <= |s| && forall j {:trigger s[j]} :: i <= j < k ==> s[j] != '\n'
    ensures Ends(w, s, i, Line) == Ends(w, s, k, Line)
    decreases k - i
  {
    if i < k { LineRead(w, s, i + 1, k); }
  }

  lemma LineOpens(w: Letters, s: string, i: nat)
    requires i + 1 < |s| && s[i] == '-' && s[i + 1] == '-'
    ensures Ends(w, s, i, Code) == Ends(w, s, i + 2, Line)
  {
  }

  lemma DashApart(a: string, t: string)
    requires (a == [] || a[|a| - 1] != '-') && t != [] && t[0] == '-'
    ensures Apart(a, t)
  {
  }

  lemma LineBehind(w: Letters, a: string, y: string, z: string)
    requires EndsOutside(w, a) && (a == [] || a[|a| - 1] != '-') && NoneOf(y, ['\n'])
    ensures var s := a + "--" + y + z;
            EndsOutside(w, s) <==> Ends(w, s, |a| + 2 + |y|, Line) == Code
  {
    hide EndsOutside, Ends, Apart;
    var s, t, n := a + "--" + y + z, "--" + y + z, |a|;
    assert s == a + t;
    DashApart(a, t);
    EndsBehind(w, a, t);
    LineOpens(w, s, n);
    forall j | n + 2 <= j < n + 2 + |y| ensures s[j] != '\n' { assert s[j] == y[j - n - 2]; }
    LineRead(w, s, n + 2, n + 2 + |y|);
  }

  /** Two dashes open a comment to the end of the line. */
  lemma LineToken(w: Letters, a: string, y: string)
    requires EndsOutside(w, a) && (a == [] || a[|a| - 1] != '-') && NoneOf(y, ['\n'])
    ensures !EndsOutside(w, a + "--" + y) && EndsOutside(w, a + "--" + y + "\n")
  {
    hide EndsOutside;
    LineBehind(w, a, y, []);
    assert a + "--" + y + [] == a + "--" + y;
    LineBehind(w, a, y, "\n");
  }

  /** Read from inside `d` comments, the text stays inside at least one. */
  predicate Inside(d: nat, y: string)
    decreases |y|
  {
    d > 0 &&
    (|| y == []
     || (y[0] == '/' && |y| >= 2 && y[1] == '*' && Inside(d + 1, y[2..]))
     || (y[0] == '*' && |y| >= 2 && y[1] == '/' && Inside(d - 1, y[2..]))
     || (!(y[0] == '/' && |y| >= 2 && y[1] == '*') && !(y[0] == '*' && |y| >= 2 && y[1] == '/') && Inside(d, y[1..])))
  }

  /** Read from inside `d` comments, the text ends with the mark that closes the last of them. */
  predicate Closing(d: nat, y: string)
    decreases |y|
  {
    if d == 0 then y == []
    else
      || (|y| >= 2 && y[0] == '/' && y[1] == '*' && Closing(d + 1, y[2..]))
      || (|y| >= 2 && y[0] == '*' && y[1] == '/' && Closing(d - 1, y[2..]))
      || (y != [] && !(|y| >= 2 && y[0] == '/' && y[1] == '*') && !(|y| >= 2 && y[0] == '*' && y[1] == '/') && Closing(d, y[1..]))
  }

  function Nested(d: nat): Mode { if d == 0 then Code else Block(d) }

  /** How many characters the next mark or character of a comment takes, and how deep it leads. */
  function Mark(d: nat, y: string): (nat, nat)
    requires d > 0 && y != []
  {
    if |y| >= 2 && y[0] == '/' && y[1] == '*' then (2, d + 1)
    else if |y| >= 2 && y[0] == '*' && y[1] == '/' then (2, d - 1)
    else (1, d)
  }

  lemma MarkRead(w: Letters, s: string, i: nat, d: nat)
    requires i < |s| && d > 0
    ensures var (n, e) := Mark(d, s[i..]);
            i + n <= |s| && Ends(w, s, i, Block(d)) == Ends(w, s, i + n, Nested(e))
  {
  }

  lemma {:induction false} InsideRead(w: Letters, s: string, i: nat, d: nat)
    requires i <= |s| && Inside(d, s[i..])
    ensures Ends(w, s, i, Block(d)).Block?
    decreases |s| - i
  {
    if i < |s| {
      var (n, e) := Mark(d, s[i..]);
      MarkRead(w, s, i, d);
      assert s[i..][n..] == s[i + n..];
      InsideRead(w, s, i + n, e);
    }
  }

  lemma {:induction false} ClosingRead(w: Letters, s: string, i: nat, d: nat)
    requires i <= |s| && Closing(d, s[i..])
    ensures Ends(w, s, i, Nested(d)) == Code
    decreases |s| - i
  {
    if d > 0 {
      var (n, e) := Mark(d, s[i..]);
      MarkRead(w, s, i, d);
      assert s[i..][n..] == s[i + n..];
      ClosingRead(w, s, i + n, e);
    } else {
      assert |s[i..]| == |s| - i;
    }
  }

  /** Comments between slash and star nest: one is open as long as more of them were opened than closed,
      and over with the mark that closes the last. */
  lemma BlockToken(w: Letters, a: string, y: string)
    requires EndsOutside(w, a)
    ensures Inside(1, y) ==> !EndsOutside(w, a + "/*" + y)
    ensures Closing(1, y) ==> EndsOutside(w, a + "/*" + y)
  {
    hide EndsOutside, Inside, Closing;
    var s, n := a + "/*" + y, |a|;
    assert s == a + ("/*" + y);
    SlashApart(a, "/*" + y);
    EndsBehind(w, a, "/*" + y);
    BlockOpens(w, s, n);
    assert s[n + 2..] == y;
    if Inside(1, y) { InsideRead(w, s, n + 2, 1); }
    if Closing(1, y) { ClosingRead(w, s, n + 2, 1); }
  }

  lemma SlashApart(a: string, t: string)
    requires t != [] && t[0] == '/'
    ensures Apart(a, t)
  {
  }

  lemma BlockOpens(w: Letters, s: string, i: nat)
    requires i + 1 < |s| && s[i] == '/' && s[i + 1] == '*'
    ensures Ends(w, s, i, Code) == Ends(w, s, i + 2, Block(1))
  {
  }

  /** Every text behind an opened comment stays inside, or some beginning of it closes the comment. */
  lemma {:induction false} InsideOrClosed(d: nat, y: string) returns (k: nat)
    requires d > 0
    ensures k <= |y| && (Inside(d, y) || Closing(d, y[..k]))
    decreases |y|
  {
    if y == [] {
      k := 0;
    } else {
      var (n, e) := Mark(d, y);
      if e == 0 {
        k := n;
        assert y[..n][n..] == [];
      } else {
        k := InsideOrClosed(e, y[n..]);
        assert y[..n + k][n..] == y[n..][..k];
        k := n + k;
      }
    }
  }

  // All else -------------------------------------------------------------------------------------

  /** No other character opens or closes anything. */
  lemma PlainToken(w: Letters, a: string, c: char)
    requires EndsOutside(w, a) && c != '\'' && c != '"' && c != '$'
    requires a == [] || (!(a[|a| - 1] == '-' && c == '-') && !(a[|a| - 1] == '/' && c == '*'))
    ensures EndsOutside(w, a + [c])
  {
    hide EndsOutside;
    EndsBehind(w, a, [c]);
  }

  lemma {:induction false} WordRead(w: Letters, s: string, i: nat, k: nat)
    requires i <= k <= |s| && forall j {:trigger s[j]} :: i <= j < k ==> TagChar(s[j])
    ensures Ends(w, s, i, Code) == Ends(w, s, k, Code)
    decreases k - i
  {
    if i < k { WordRead(w, s, i + 1, k); }
  }

  lemma DollarPlain(w: Letters, s: string, i: nat)
    requires i < |s| && s[i] == '$' && Delimiter(s, i).None?
    ensures Ends(w, s, i, Code) == Ends(w, s, i + 1, Code)
  {
    hide Delimiter;
  }

  lemma DollarWord(w: Letters, a: string, word: string, z: string)
    requires EndsOutside(w, a) && NoOpenTag(a) && AllTag(word) && Delimiter(a + "$" + word + z, |a|).None?
    ensures var s := a + "$" + word + z;
            EndsOutside(w, s) <==> Ends(w, s, |a| + 1 + |word|, Code) == Code
  {
    hide EndsOutside, Ends, Apart, NoOpenTag, Delimiter;
    var s, t, n := a + "$" + word + z, "$" + word + z, |a|;
    assert s == a + t;
    DollarApart(a, t);
    EndsBehind(w, a, t);
    DollarPlain(w, s, n);
    forall j | n + 1 <= j < n + 1 + |word| ensures TagChar(s[j]) { assert s[j] == word[j - n - 1]; }
    WordRead(w, s, n + 1, n + 1 + |word|);
  }

  /** A dollar sign opens nothing unless a tag and another dollar sign follow it, and a tag cannot start
      with a digit: a numbered parameter is not a delimiter. */
  lemma NoDollarToken(w: Letters, a: string, word: string)
    requires EndsOutside(w, a) && NoOpenTag(a) && AllTag(word)
    ensures EndsOutside(w, a + "$" + word)
    ensures word != [] && AsciiDigit(word[0]) ==> EndsOutside(w, a + "$" + word + "$")
  {
    hide EndsOutside, NoOpenTag, Ends;
    var s, n := a + "$" + word, |a|;
    forall j | n + 1 <= j < |s| ensures TagChar(s[j]) { assert s[j] == word[j - n - 1]; }
    TagRuns(s, n + 1);
    assert a + "$" + word + [] == s;
    DollarWord(w, a, word, []);
    EndsAtEnd(w, s, Code);
    if word != [] && AsciiDigit(word[0]) { NumberedParameter(w, a, word); }
  }

  lemma NumberedParameter(w: Letters, a: string, word: string)
    requires EndsOutside(w, a) && NoOpenTag(a) && AllTag(word) && word != [] && AsciiDigit(word[0])
    ensures EndsOutside(w, a + "$" + word + "$")
  {
    hide EndsOutside, NoOpenTag, Ends;
    var s, n := a + "$" + word + "$", |a|;
    assert s[n] == '$' && s[n + 1] == word[0] && s[|s| - 1] == '$';
    assert TagEnd(s, n + 1) > n + 1;
    DollarWord(w, a, word, "$");
    DollarPlain(w, s, |s| - 1);
    EndsAtEnd(w, s, Code);
  }

  /** White space is what has the Unicode property of that name. */
  lemma WhiteSpace(c: char)
    ensures White(c) <==>
              c as int in {9, 10, 11, 12, 13, 0x20, 0x85, 0xA0, 0x1680, 0x2000, 0x2001, 0x2002, 0x2003, 0x2004, 0x2005,
                           0x2006, 0x2007, 0x2008, 0x2009, 0x200A, 0x2028, 0x2029, 0x202F, 0x205F, 0x3000}
  {
  }
}
