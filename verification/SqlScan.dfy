/** How SQL text is read to find the semicolons that end statements: an automaton over its quotes,
    dollar bodies and comments. */
module SqlScan {
  import opened Bytes

  // Characters -----------------------------------------------------------------------------------

  /** Unicode white space. */
  predicate White(c: char) {
    var n := c as int;
    || 0x09 <= n <= 0x0D || n == 0x20 || n == 0x85 || n == 0xA0 || n == 0x1680 || 0x2000 <= n <= 0x200A
    || n == 0x2028 || n == 0x2029 || n == 0x202F || n == 0x205F || n == 0x3000
  }

  predicate AsciiDigit(c: char) { '0' <= c <= '9' }

  predicate AsciiWord(c: char) { 'a' <= c <= 'z' || 'A' <= c <= 'Z' || AsciiDigit(c) }

  /** Letters and numbers of any script, of which this much is used: no white space and no semicolon
      is one. */
  ghost predicate Alphabet(f: char -> bool) {
    !f(';') && forall c {:trigger White(c)} {:trigger f(c)} :: White(c) ==> !f(c)
  }

  type Letters = f: char -> bool | Alphabet(f) ghost witness AsciiWord

  /** Characters that end any token they do not stand inside. */
  predicate Neutral(c: char) { White(c) || c == ';' }

  predicate Has(s: string, i: nat, c: char) { i < |s| && s[i] == c }

  // Tokens ---------------------------------------------------------------------------------------

  predicate TagChar(c: char) { AsciiWord(c) || c == '_' }

  function TagEnd(s: string, i: nat): (j: nat)
    requires i <= |s|
    ensures i <= j <= |s|
    decreases |s| - i
  {
    if i < |s| && TagChar(s[i]) then TagEnd(s, i + 1) else i
  }

  /** The tag of a dollar quote that begins at `i`: a second dollar sign must close it, and it cannot
      start with a digit. */
  function Delimiter(s: string, i: nat): (r: Option<string>)
    requires i < |s|
    ensures r.Some? ==> i + |r.value| + 2 <= |s|
  {
    var j := TagEnd(s, i + 1);
    if !Has(s, j, '$') || (i + 1 < j && AsciiDigit(s[i + 1])) then None else Some(s[i + 1..j])
  }

  /** Whether the quote at `i` opens a string with backslash escapes: an `e` right before it that
      does not end a longer word. */
  predicate OpensEscape(w: Letters, s: string, i: nat)
    requires i < |s|
  {
    && i >= 1 && (s[i - 1] == 'e' || s[i - 1] == 'E')
    && !(i >= 2 && (w(s[i - 2]) || s[i - 2] == '_' || s[i - 2] == '$'))
  }

  /** What the text read so far leaves open. */
  datatype Mode = Code | Line | Block(depth: nat) | Single(escapes: bool) | Double | Dollar(tag: string)

  /** A token: how far it reaches, what it opens or closes, and whether it is more than white space
      and comment. */
  datatype Move = Move(length: nat, mode: Mode, code: bool) | Cut

  function Next(w: Letters, s: string, i: nat, m: Mode): (r: Move)
    requires i < |s|
    ensures r.Move? ==> r.length > 0
  {
    var c := s[i];
    match m
    case Code =>
      if c == '-' && Has(s, i + 1, '-') then Move(2, Line, false)
      else if c == '/' && Has(s, i + 1, '*') then Move(2, Block(1), false)
      else if c == '\'' then Move(1, Single(OpensEscape(w, s, i)), true)
      else if c == '"' then Move(1, Double, true)
      else if c == '$' && Delimiter(s, i).Some? then
        var tag := Delimiter(s, i).value;
        Move(|tag| + 2, Dollar(tag), true)
      else if c == ';' then Cut
      else Move(1, Code, !White(c))
    case Line => Move(1, if c == '\n' then Code else Line, false)
    case Block(d) =>
      if c == '/' && Has(s, i + 1, '*') then Move(2, Block(d + 1), false)
      else if c == '*' && Has(s, i + 1, '/') then Move(2, if d <= 1 then Code else Block(d - 1), false)
      else Move(1, m, false)
    case Single(e) =>
      if c == '\\' && e then Move(2, m, true)
      else if c == '\'' && Has(s, i + 1, '\'') then Move(2, m, true)
      else Move(1, if c == '\'' then Code else m, !Neutral(c))
    case Double =>
      if c == '"' && Has(s, i + 1, '"') then Move(2, m, true)
      else Move(1, if c == '"' then Code else m, !Neutral(c))
    case Dollar(tag) =>
      if c == '$' && Delimiter(s, i) == Some(tag) then Move(|tag| + 2, Code, false) else Move(1, m, false)
  }

  // Runs -----------------------------------------------------------------------------------------

  /** How far the text is read, what is open there, where the current statement starts, whether it has
      any code, and the statements before it. */
  datatype State = State(at: nat, mode: Mode, start: nat, code: bool, out: seq<string>)

  const FRESH := State(0, Code, 0, false, [])

  predicate Reading(s: string, st: State) { st.start <= st.at && st.start <= |s| }

  function TrimStart(s: string): string { if s != [] && White(s[0]) then TrimStart(s[1..]) else s }

  function TrimEnd(s: string): string { if s != [] && White(s[|s| - 1]) then TrimEnd(s[..|s| - 1]) else s }

  function Trim(s: string): string { TrimEnd(TrimStart(s)) }

  /** The statement that ends at `end`, unless there is only white space and comment. */
  function Statement(s: string, start: nat, end: nat, code: bool): seq<string>
    requires start <= end <= |s|
  {
    if code then [Trim(s[start..end])] else []
  }

  function Step(w: Letters, s: string, st: State): (r: State)
    requires Reading(s, st) && st.at < |s|
    ensures Reading(s, r) && r.at > st.at
  {
    match Next(w, s, st.at, st.mode)
    case Cut => State(st.at + 1, Code, st.at + 1, false, st.out + Statement(s, st.start, st.at, st.code))
    case Move(length, mode, code) => st.(at := st.at + length, mode := mode, code := st.code || code)
  }

  function Run(w: Letters, s: string, st: State): (r: State)
    requires Reading(s, st)
    ensures Reading(s, r) && r.at >= |s|
    decreases |s| - st.at
  {
    if st.at >= |s| then st else Run(w, s, Step(w, s, st))
  }

  function Finish(s: string, st: State): seq<string>
    requires Reading(s, st)
  {
    st.out + Statement(s, st.start, |s|, st.code)
  }

  /** The statements of a text. */
  function Split(w: Letters, s: string): seq<string> { Finish(s, Run(w, s, FRESH)) }

  /** The text ends outside every quote, dollar body and comment. */
  predicate EndsOutside(w: Letters, s: string) { Run(w, s, FRESH).mode == Code }

  /** Some semicolon has ended a statement, no code follows it, and nothing is left open but perhaps a
      comment that the end of the line would close. */
  predicate Complete(w: Letters, s: string) {
    var st := Run(w, s, FRESH);
    st.start > 0 && !st.code && (st.mode == Code || st.mode == Line)
  }
}
