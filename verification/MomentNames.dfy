/** The names of backups: a moment in seconds since the Unix epoch, as YYYYMMDDTHHMMSSZ. */
module MomentNames {
  import opened Calendar

  /** The first second of the year 10000. */
  const FIVE_DIGITS: nat := 253402300800

  function Digit(n: nat): char
    requires n < 10
  {
    ('0' as int + n) as char
  }

  predicate IsDigit(c: char) { '0' <= c <= '9' }

  /** `n` in decimal, with zeros in front up to a width. */
  function Padded(n: nat, width: nat): string
    decreases n + width
  {
    if n < 10 && width <= 1 then [Digit(n)]
    else Padded(n / 10, if width == 0 then 0 else width - 1) + [Digit(n % 10)]
  }

  function MomentName(secs: nat): string {
    var c, rem := DateOf(secs / 86400), secs % 86400;
    Padded(c.year, 4)
    + (Padded(c.month, 2) + (Padded(c.day, 2)
    + ("T" + (Padded(rem / 3600, 2) + (Padded(rem % 3600 / 60, 2) + (Padded(rem % 60, 2) + "Z"))))))
  }

  predicate IsMomentName(name: string) {
    && |name| == 16 && name[8] == 'T' && name[15] == 'Z'
    && forall i {:trigger name[i]} :: 0 <= i < 16 ==> i == 8 || i == 15 || IsDigit(name[i])
  }

  // Decimals -------------------------------------------------------------------------------------

  function Pow10(n: nat): (p: nat)
    ensures p > 0
  {
    if n == 0 then 1 else 10 * Pow10(n - 1)
  }

  predicate Digits(s: string) { forall i {:trigger s[i]} :: 0 <= i < |s| ==> IsDigit(s[i]) }

  function Number(s: string): nat {
    if s == [] then 0
    else
      var last := s[|s| - 1];
      10 * Number(s[..|s| - 1]) + if IsDigit(last) then last as int - '0' as int else 0
  }

  lemma OneMoreDigit(s: string, d: nat)
    requires d < 10 && Digits(s)
    ensures Digits(s + [Digit(d)]) && Number(s + [Digit(d)]) == 10 * Number(s) + d
  {
    assert (s + [Digit(d)])[..|s|] == s;
  }

  lemma {:induction false} PaddedReads(n: nat, width: nat)
    ensures Digits(Padded(n, width)) && Number(Padded(n, width)) == n
    decreases n + width
  {
    hide Number, Digits;
    if n < 10 && width <= 1 {
      NoDigits();
      OneMoreDigit([], n);
      assert [] + [Digit(n)] == [Digit(n)];
    } else {
      var w := if width == 0 then 0 else width - 1;
      PaddedReads(n / 10, w);
      OneMoreDigit(Padded(n / 10, w), n % 10);
      assert 10 * (n / 10) + n % 10 == n;
    }
  }

  lemma NoDigits()
    ensures Digits([]) && Number([]) == 0
  {
  }

  lemma {:induction false} PaddedLength(n: nat, width: nat)
    requires width > 0
    ensures |Padded(n, width)| >= width
    ensures |Padded(n, width)| == width <==> n < Pow10(width)
    decreases width
  {
    if width == 1 {
      assert Pow10(1) == 10 && Pow10(0) == 1;
      if n >= 10 { NotEmpty(n / 10, 0); }
    } else {
      PaddedLength(n / 10, width - 1);
    }
  }

  lemma NotEmpty(n: nat, width: nat)
    ensures |Padded(n, width)| > 0
  {
  }

  /** The leading digit of four- and five-digit years. */
  lemma PaddedFirst(n: nat, width: nat)
    requires width == 4 && (n == 9999 || n == 10000)
    ensures Padded(n, width)[0] == if n == 9999 then '9' else '1'
  {
    if n == 9999 {
      assert Padded(9, 1) == ['9'];
      assert Padded(99, 2) == Padded(9, 1) + ['9'];
      assert Padded(999, 3) == Padded(99, 2) + ['9'];
      assert Padded(9999, 4) == Padded(999, 3) + ['9'];
    } else {
      assert Padded(1, 0) == ['1'];
      assert Padded(10, 1) == Padded(1, 0) + ['0'];
      assert Padded(100, 2) == Padded(10, 1) + ['0'];
      assert Padded(1000, 3) == Padded(100, 2) + ['0'];
      assert Padded(10000, 4) == Padded(1000, 3) + ['0'];
    }
  }

  // Order ----------------------------------------------------------------------------------------

  /** The order of strings. */
  predicate Less(a: string, b: string) {
    b != [] && (a == [] || a[0] < b[0] || (a[0] == b[0] && Less(a[1..], b[1..])))
  }

  /** The strings agree up to `i`, and there `a` has ended or is less. */
  predicate LessAt(a: string, b: string, i: nat) {
    i <= |a| && i < |b| && a[..i] == b[..i] && (i < |a| ==> a[i] < b[i])
  }

  lemma LessAtHead(a: string, b: string, i: nat)
    requires LessAt(a, b, i)
    ensures i > 0 ==> a != [] && a[0] == b[0] && LessAt(a[1..], b[1..], i - 1)
  {
    if i > 0 {
      assert a[..i][0] == b[..i][0];
      assert a[1..][..i - 1] == a[..i][1..] && b[1..][..i - 1] == b[..i][1..];
    }
  }

  lemma LessAtTail(a: string, b: string, i: nat)
    requires a != [] && b != [] && a[0] == b[0] && LessAt(a[1..], b[1..], i)
    ensures LessAt(a, b, i + 1)
  {
    assert a[..i + 1] == [a[0]] + a[1..][..i] && b[..i + 1] == [b[0]] + b[1..][..i];
  }

  /** The order is that of the first difference, a missing character being the least. */
  lemma {:induction false} LessSpelled(a: string, b: string)
    ensures Less(a, b) <==> exists i :: LessAt(a, b, i)
    decreases |a|
  {
    forall i: nat | LessAt(a, b, i) ensures i > 0 ==> a != [] && a[0] == b[0] && LessAt(a[1..], b[1..], i - 1) {
      LessAtHead(a, b, i);
    }
    if b != [] {
      assert a == [] || a[0] < b[0] ==> LessAt(a, b, 0);
      if a != [] && a[0] == b[0] {
        LessSpelled(a[1..], b[1..]);
        if i :| LessAt(a[1..], b[1..], i) { LessAtTail(a, b, i); }
      }
    }
  }

  lemma {:induction false} LessThen(a: string, u: string, v: string)
    requires Less(u, v)
    ensures Less(a + u, a + v)
    decreases |a|
  {
    if a == [] {
      assert a + u == u && a + v == v;
    } else {
      LessThen(a[1..], u, v);
      assert (a + u)[1..] == a[1..] + u && (a + v)[1..] == a[1..] + v;
    }
  }

  lemma {:induction false} LessFirst(a: string, b: string, u: string, v: string)
    requires |a| == |b| && Less(a, b)
    ensures Less(a + u, b + v)
    decreases |a|
  {
    if a[0] == b[0] {
      LessFirst(a[1..], b[1..], u, v);
      assert (a + u)[1..] == a[1..] + u && (b + v)[1..] == b[1..] + v;
    }
  }

  lemma {:induction false} PaddedIncreases(a: nat, b: nat, width: nat)
    requires a < b < Pow10(width) && width > 0
    ensures Less(Padded(a, width), Padded(b, width))
    decreases width
  {
    if width == 1 {
      assert Pow10(1) == 10 && Pow10(0) == 1;
    } else if a / 10 < b / 10 {
      PaddedIncreases(a / 10, b / 10, width - 1);
      PaddedLength(a / 10, width - 1);
      PaddedLength(b / 10, width - 1);
      LessFirst(Padded(a / 10, width - 1), Padded(b / 10, width - 1), [Digit(a % 10)], [Digit(b % 10)]);
    } else {
      assert a / 10 == b / 10 && a % 10 < b % 10;
      LessThen(Padded(a / 10, width - 1), [Digit(a % 10)], [Digit(b % 10)]);
    }
  }

  /** One field in front of the rest decides, unless it is the same in both. */
  lemma FieldDecides(a: nat, b: nat, width: nat, u: string, v: string)
    requires a < Pow10(width) && b < Pow10(width) && width > 0
    requires a < b || (a == b && Less(u, v))
    ensures Less(Padded(a, width) + u, Padded(b, width) + v)
  {
    if a < b {
      PaddedIncreases(a, b, width);
      PaddedLength(a, width);
      PaddedLength(b, width);
      LessFirst(Padded(a, width), Padded(b, width), u, v);
    } else {
      LessThen(Padded(a, width), u, v);
    }
  }

  lemma {:induction false} LessIsStrict(a: string, b: string)
    ensures Less(a, b) ==> !Less(b, a)
    ensures a != b ==> Less(a, b) || Less(b, a)
    decreases |a|
  {
    if a != [] && b != [] {
      LessIsStrict(a[1..], b[1..]);
      assert a == [a[0]] + a[1..] && b == [b[0]] + b[1..];
    }
  }

  lemma {:induction false} LessChains(a: string, b: string, c: string)
    requires Less(a, b) && Less(b, c)
    ensures Less(a, c)
    decreases |a|
  {
    if a != [] && a[0] == b[0] == c[0] { LessChains(a[1..], b[1..], c[1..]); }
  }

  // Names ----------------------------------------------------------------------------------------

  function TimeName(rem: nat): string {
    Padded(rem / 3600, 2) + (Padded(rem % 3600 / 60, 2) + (Padded(rem % 60, 2) + "Z"))
  }

  function DateName(c: Date, rest: string): string {
    Padded(c.year, 4) + (Padded(c.month, 2) + (Padded(c.day, 2) + rest))
  }

  lemma TwoDigits()
    ensures Pow10(2) == 100 && Pow10(4) == 10000
  {
    assert Pow10(1) == 10 && Pow10(3) == 1000;
  }

  lemma ClockOrder(a: nat, b: nat)
    requires a < b < 86400
    ensures a / 3600 < 100 && b / 3600 < 100 && a % 3600 / 60 < 100 && b % 3600 / 60 < 100
    ensures || a / 3600 < b / 3600
            || (a / 3600 == b / 3600 && a % 3600 / 60 < b % 3600 / 60)
            || (a / 3600 == b / 3600 && a % 3600 / 60 == b % 3600 / 60 && a % 60 < b % 60)
  {
    assert a == 3600 * (a / 3600) + a % 3600 && b == 3600 * (b / 3600) + b % 3600;
    assert a % 3600 == 60 * (a % 3600 / 60) + a % 3600 % 60 && b % 3600 == 60 * (b % 3600 / 60) + b % 3600 % 60;
    SameSeconds(a);
    SameSeconds(b);
  }

  lemma SameSeconds(a: nat)
    ensures a % 3600 % 60 == a % 60
  {
    assert a == 3600 * (a / 3600) + a % 3600;
    assert a == 60 * (60 * (a / 3600)) + a % 3600;
  }

  lemma {:induction false} TimesIncrease(a: nat, b: nat)
    requires a < b < 86400
    ensures Less(TimeName(a), TimeName(b))
  {
    hide Padded, Less, Pow10;
    TwoDigits();
    ClockOrder(a, b);
    ThreeFields(a / 3600, a % 3600 / 60, a % 60, b / 3600, b % 3600 / 60, b % 60);
  }

  lemma {:induction false} TwoFields(m: nat, s: nat, n: nat, t: nat)
    requires m < 100 && s < 100 && n < 100 && t < 100 && (m < n || (m == n && s < t))
    ensures Less(Padded(m, 2) + (Padded(s, 2) + "Z"), Padded(n, 2) + (Padded(t, 2) + "Z"))
  {
    hide Padded, Less, Pow10;
    TwoDigits();
    if m == n { FieldDecides(s, t, 2, "Z", "Z"); }
    FieldDecides(m, n, 2, Padded(s, 2) + "Z", Padded(t, 2) + "Z");
  }

  lemma {:induction false} ThreeFields(h: nat, m: nat, s: nat, i: nat, n: nat, t: nat)
    requires h < 100 && m < 100 && s < 60 && i < 100 && n < 100 && t < 60
    requires h < i || (h == i && m < n) || (h == i && m == n && s < t)
    ensures Less(Padded(h, 2) + (Padded(m, 2) + (Padded(s, 2) + "Z")), Padded(i, 2) + (Padded(n, 2) + (Padded(t, 2) + "Z")))
  {
    hide Padded, Less, Pow10;
    TwoDigits();
    if h == i { TwoFields(m, s, n, t); }
    FieldDecides(h, i, 2, Padded(m, 2) + (Padded(s, 2) + "Z"), Padded(n, 2) + (Padded(t, 2) + "Z"));
  }

  lemma DateDecides(a: Date, b: Date, u: string, v: string)
    requires OnCalendar(a) && OnCalendar(b) && a.year < 10000 && b.year < 10000
    requires Before(a, b) || (a == b && Less(u, v))
    ensures Less(DateName(a, u), DateName(b, v))
  {
    hide Padded, Less;
    TwoDigits();
    if a.day < b.day || (a.day == b.day && Less(u, v)) { FieldDecides(a.day, b.day, 2, u, v); }
    var ud, vd := Padded(a.day, 2) + u, Padded(b.day, 2) + v;
    if a.month < b.month || (a.month == b.month && Less(ud, vd)) { FieldDecides(a.month, b.month, 2, ud, vd); }
    FieldDecides(a.year, b.year, 4, Padded(a.month, 2) + ud, Padded(b.month, 2) + vd);
  }

  lemma LastOf9999()
    ensures OnCalendar(Date(9999, 12, 31)) && DayNumber(Date(9999, 12, 31)) == FIVE_DIGITS / 86400 - 1
  {
    hide DaysToYear, DaysToMonth;
    YearsCounted(9999);
    MonthsCounted(9999);
  }

  lemma FirstOf10000()
    ensures OnCalendar(Date(10000, 1, 1)) && DayNumber(Date(10000, 1, 1)) == FIVE_DIGITS / 86400
  {
    hide DaysToYear;
    YearsCounted(10000);
  }

  lemma FourDigitYears(secs: nat)
    ensures DateOf(secs / 86400).year < 10000 <==> secs < FIVE_DIGITS
  {
    hide DateOf, DayNumber;
    var days, last := secs / 86400, Date(9999, 12, 31);
    var c := DateOf(days);
    LastOf9999();
    CountsBack(days);
    if Before(c, last) { Monotone(c, last); }
    if Before(last, c) { Monotone(last, c); }
  }

  /** Names sort as their moments do, through the year 9999. */
  lemma NamesIncrease(a: nat, b: nat)
    requires a < b < FIVE_DIGITS
    ensures Less(MomentName(a), MomentName(b))
  {
    hide Padded, Less, DateOf;
    var x, y := DateOf(a / 86400), DateOf(b / 86400);
    FourDigitYears(a);
    FourDigitYears(b);
    CountsBack(a / 86400);
    CountsBack(b / 86400);
    if a / 86400 < b / 86400 {
      DatesIncrease(a / 86400, b / 86400);
    } else {
      TimesIncrease(a % 86400, b % 86400);
      LessThen("T", TimeName(a % 86400), TimeName(b % 86400));
    }
    DateDecides(x, y, "T" + TimeName(a % 86400), "T" + TimeName(b % 86400));
  }

  /** So the order of the names is the order of the moments. */
  lemma NamesSort(a: nat, b: nat)
    requires a < FIVE_DIGITS && b < FIVE_DIGITS
    ensures Less(MomentName(a), MomentName(b)) <==> a < b
  {
    hide MomentName;
    if a < b { NamesIncrease(a, b); }
    if b < a { NamesIncrease(b, a); }
    LessIsStrict(MomentName(a), MomentName(b));
    LessIsStrict(MomentName(a), MomentName(a));
  }

  /** From the year 10000 on they do not: the first such name sorts before the last one of 9999. */
  lemma FiveDigitsSortFirst()
    ensures Less(MomentName(FIVE_DIGITS), MomentName(FIVE_DIGITS - 1))
  {
    hide DateOf, OnCalendar, DayNumber;
    LastOf9999();
    FirstOf10000();
    Inverts(Date(10000, 1, 1));
    Inverts(Date(9999, 12, 31));
    assert (FIVE_DIGITS - 1) / 86400 == FIVE_DIGITS / 86400 - 1;
    PaddedFirst(10000, 4);
    PaddedFirst(9999, 4);
    var a, b := MomentName(FIVE_DIGITS), MomentName(FIVE_DIGITS - 1);
    assert a[0] == Padded(10000, 4)[0] && b[0] == Padded(9999, 4)[0];
  }

  // What a name spells ---------------------------------------------------------------------------

  /** The moment a name spells: a year, then twelve characters for the rest. */
  function SecondsOf(name: string): nat
    requires |name| >= 12
  {
    var n := |name| - 12;
    var t := name[n..];
    var c := Date(Number(name[..n]), Number(t[0..2]), Number(t[2..4]));
    if OnCalendar(c) then DayNumber(c) * 86400 + Number(t[5..7]) * 3600 + Number(t[7..9]) * 60 + Number(t[9..11]) else 0
  }

  function TailName(month: nat, day: nat, h: nat, m: nat, s: nat): string {
    Padded(month, 2) + (Padded(day, 2) + ("T" + (Padded(h, 2) + (Padded(m, 2) + (Padded(s, 2) + "Z")))))
  }

  lemma TailShape(month: nat, day: nat, h: nat, m: nat, s: nat)
    requires month < 100 && day < 100 && h < 100 && m < 100 && s < 100
    ensures var t := TailName(month, day, h, m, s);
            && |t| == 12 && t[4] == 'T' && t[11] == 'Z'
            && t[0..2] == Padded(month, 2) && t[2..4] == Padded(day, 2)
            && t[5..7] == Padded(h, 2) && t[7..9] == Padded(m, 2) && t[9..11] == Padded(s, 2)
  {
    hide Padded, Pow10;
    TwoDigits();
    PaddedLength(month, 2);
    PaddedLength(day, 2);
    PaddedLength(h, 2);
    PaddedLength(m, 2);
    PaddedLength(s, 2);
    PairsJoined(Padded(month, 2), Padded(day, 2), Padded(h, 2), Padded(m, 2), Padded(s, 2));
  }

  lemma PairsJoined(a: string, b: string, h: string, m: string, s: string)
    requires |a| == |b| == |h| == |m| == |s| == 2
    ensures var t := a + (b + ("T" + (h + (m + (s + "Z")))));
            && |t| == 12 && t[4] == 'T' && t[11] == 'Z'
            && t[0..2] == a && t[2..4] == b && t[5..7] == h && t[7..9] == m && t[9..11] == s
  {
    var t := a + (b + ("T" + (h + (m + (s + "Z")))));
    assert t == [a[0], a[1], b[0], b[1], 'T', h[0], h[1], m[0], m[1], s[0], s[1], 'Z'];
  }

  /** A name spells the moment it was made from, whatever the year. */
  lemma NamesReadBack(secs: nat)
    ensures |MomentName(secs)| >= 16 && SecondsOf(MomentName(secs)) == secs
  {
    hide Padded, DateOf, DayNumber, Number;
    var c, rem := DateOf(secs / 86400), secs % 86400;
    CountsBack(secs / 86400);
    var h, m, s := rem / 3600, rem % 3600 / 60, rem % 60;
    TailShape(c.month, c.day, h, m, s);
    PaddedLength(c.year, 4);
    var name, y := MomentName(secs), Padded(c.year, 4);
    assert name == y + TailName(c.month, c.day, h, m, s);
    assert name[..|name| - 12] == y && name[|name| - 12..] == TailName(c.month, c.day, h, m, s);
    PaddedReads(c.year, 4);
    PaddedReads(c.month, 2);
    PaddedReads(c.day, 2);
    PaddedReads(h, 2);
    PaddedReads(m, 2);
    PaddedReads(s, 2);
  }

  /** The names that are recognized as a backup's are those of moments before the year 10000. */
  lemma Recognized(secs: nat)
    ensures IsMomentName(MomentName(secs)) <==> secs < FIVE_DIGITS
  {
    hide Padded, DateOf, DayNumber, Number, Pow10;
    var c, rem := DateOf(secs / 86400), secs % 86400;
    CountsBack(secs / 86400);
    FourDigitYears(secs);
    TwoDigits();
    PaddedLength(c.year, 4);
    var h, m, s := rem / 3600, rem % 3600 / 60, rem % 60;
    TailShape(c.month, c.day, h, m, s);
    var name, y, t := MomentName(secs), Padded(c.year, 4), TailName(c.month, c.day, h, m, s);
    assert name == y + t;
    if secs < FIVE_DIGITS {
      PaddedReads(c.year, 4);
      TailDigits(c.month, c.day, h, m, s);
      assert forall i {:trigger name[i]} :: 4 <= i < 16 ==> name[i] == t[i - 4];
    }
  }

  lemma TailDigits(month: nat, day: nat, h: nat, m: nat, s: nat)
    requires month < 100 && day < 100 && h < 100 && m < 100 && s < 100
    ensures var t := TailName(month, day, h, m, s);
            |t| == 12 && forall i {:trigger t[i]} :: 0 <= i < 12 ==> i == 4 || i == 11 || IsDigit(t[i])
  {
    hide Padded, TailName, IsDigit;
    var t := TailName(month, day, h, m, s);
    TailShape(month, day, h, m, s);
    PaddedReads(month, 2);
    PaddedReads(day, 2);
    PaddedReads(h, 2);
    PaddedReads(m, 2);
    PaddedReads(s, 2);
    assert t[0] == t[0..2][0] && t[1] == t[0..2][1] && t[2] == t[2..4][0] && t[3] == t[2..4][1];
    assert t[5] == t[5..7][0] && t[6] == t[5..7][1] && t[7] == t[7..9][0] && t[8] == t[7..9][1];
    assert t[9] == t[9..11][0] && t[10] == t[9..11][1];
  }
}
