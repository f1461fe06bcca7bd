/** The backup directory: each backup gets the next free moment's name, and retention removes the
    oldest complete backups. */
module Backups {
  import opened Bytes
  import opened MomentNames

  /** The backups that count, of a directory's entries and whether each holds a manifest. */
  function Complete(entries: map<string, bool>): set<string> {
    set n | n in entries && IsMomentName(n) && entries[n]
  }

  function Later(names: set<string>, n: string): set<string> { set m | m in names && Less(n, m) }

  function Earlier(names: set<string>, n: string): set<string> { set m | m in names && Less(m, n) }

  function Least(a: nat, b: nat): nat { if a < b then a else b }

  /** Backups that have at least `count` later ones. */
  function Excess(names: set<string>, count: nat): set<string> {
    set n | n in names && |Later(names, n)| >= count
  }

  lemma InExcess(names: set<string>, count: nat, n: string)
    ensures n in Excess(names, count) <==> n in names && |Later(names, n)| >= count
  {
  }

  // Sorting --------------------------------------------------------------------------------------

  predicate Increasing(s: seq<string>) { forall i, j {:trigger s[i], s[j]} :: 0 <= i < j < |s| ==> Less(s[i], s[j]) }

  function Elements(s: seq<string>): set<string> { set i | 0 <= i < |s| :: s[i] }

  lemma {:induction false} AsManyElements(s: seq<string>)
    requires Increasing(s)
    ensures |Elements(s)| == |s|
    decreases |s|
  {
    if s != [] {
      var rest := s[..|s| - 1];
      var last := s[|s| - 1];
      AsManyElements(rest);
      forall i | 0 <= i < |rest| ensures rest[i] != last { LessIsStrict(rest[i], last); }
      assert Elements(s) == Elements(rest) + {last} by {
        forall n | n in Elements(s) ensures n in Elements(rest) + {last} {
          var i :| 0 <= i < |s| && s[i] == n;
          if i < |rest| { assert rest[i] == n; }
        }
        forall n | n in Elements(rest) ensures n in Elements(s) {
          var i :| 0 <= i < |rest| && rest[i] == n;
          assert s[i] == n;
        }
      }
    }
  }

  lemma LaterCount(s: seq<string>, i: nat)
    requires Increasing(s) && i < |s|
    ensures |Later(Elements(s), s[i])| == |s| - 1 - i
  {
    var rest := s[i + 1..];
    forall n ensures n in Later(Elements(s), s[i]) <==> n in Elements(rest) {
      if n in Later(Elements(s), s[i]) {
        var j :| 0 <= j < |s| && s[j] == n;
        if j <= i { LessIsStrict(s[j], s[i]); }
        assert rest[j - i - 1] == n;
      }
      if n in Elements(rest) {
        var j :| 0 <= j < |rest| && rest[j] == n;
        assert s[i + 1 + j] == n;
      }
    }
    assert Later(Elements(s), s[i]) == Elements(rest);
    AsManyElements(rest);
  }

  /** Where a name goes in a sorted list. */
  method Place(s: seq<string>, n: string) returns (at: nat)
    requires Increasing(s) && n !in Elements(s)
    ensures at <= |s|
    ensures forall j {:trigger s[j]} :: 0 <= j < at ==> Less(s[j], n)
    ensures forall j {:trigger s[j]} :: at <= j < |s| ==> Less(n, s[j])
  {
    at := 0;
    while at < |s| && Less(s[at], n)
      invariant at <= |s|
      invariant forall j {:trigger s[j]} :: 0 <= j < at ==> Less(s[j], n)
    {
      at := at + 1;
    }
    if at < |s| {
      assert s[at] in Elements(s);
      LessIsStrict(s[at], n);
      forall j | at < j < |s| ensures Less(n, s[j]) { LessChains(n, s[at], s[j]); }
    }
  }

  /** A listing, sorted by name. */
  method Sorted(names: set<string>) returns (s: seq<string>)
    ensures Increasing(s) && Elements(s) == names
  {
    s := [];
    var left := names;
    while left != {}
      invariant Increasing(s) && left <= names && Elements(s) == names - left
      decreases |left|
    {
      var n :| n in left;
      var at := Place(s, n);
      Inserted(s, at, n);
      s := s[..at] + [n] + s[at..];
      left := left - {n};
    }
  }

  lemma Inserted(s: seq<string>, at: nat, n: string)
    requires Increasing(s) && at <= |s|
    requires forall j {:trigger s[j]} :: 0 <= j < at ==> Less(s[j], n)
    requires forall j {:trigger s[j]} :: at <= j < |s| ==> Less(n, s[j])
    ensures Increasing(s[..at] + [n] + s[at..])
    ensures Elements(s[..at] + [n] + s[at..]) == Elements(s) + {n}
  {
    var t := s[..at] + [n] + s[at..];
    forall m ensures m in Elements(t) <==> m in Elements(s) || m == n {
      if m in Elements(s) {
        var i :| 0 <= i < |s| && s[i] == m;
        assert t[if i < at then i else i + 1] == m;
      }
      if m == n { assert t[at] == m; }
      if m in Elements(t) && m != n {
        var i :| 0 <= i < |t| && t[i] == m;
        assert s[if i < at then i else i - 1] == m;
      }
    }
  }

  lemma OneMoreElement(s: seq<string>, i: nat)
    requires i < |s|
    ensures Elements(s[..i + 1]) == Elements(s[..i]) + {s[i]}
  {
    var t := s[..i + 1];
    assert t[i] == s[i];
    forall n | n in Elements(t) ensures n in Elements(s[..i]) + {s[i]} {
      var j :| 0 <= j < |t| && t[j] == n;
      if j < i { assert s[..i][j] == n; }
    }
    forall n | n in Elements(s[..i]) ensures n in Elements(t) {
      var j :| 0 <= j < i && s[..i][j] == n;
      assert t[j] == n;
    }
  }

  lemma Within(s: seq<string>, i: nat)
    requires i < |s|
    ensures s[i] in Elements(s)
  {
  }

  lemma OlderThan(s: seq<string>, i: nat)
    requires Increasing(s) && i < |s|
    ensures Elements(s[..i]) == Earlier(Elements(s), s[i])
  {
    forall m ensures m in Elements(s[..i]) <==> m in Elements(s) && Less(m, s[i]) {
      if m in Elements(s[..i]) {
        var j :| 0 <= j < i && s[..i][j] == m;
        assert s[j] == m;
      }
      if m in Elements(s) && Less(m, s[i]) {
        var j :| 0 <= j < |s| && s[j] == m;
        LessIsStrict(s[i], m);
        LessIsStrict(m, m);
        assert j < i;
        assert s[..i][j] == m;
      }
    }
  }

  lemma ExcessIsPrefix(s: seq<string>, count: nat, n: nat)
    requires Increasing(s) && n == if |s| < count then 0 else |s| - count
    ensures Excess(Elements(s), count) == Elements(s[..n])
    ensures |Elements(s) - Excess(Elements(s), count)| == Least(|s|, count)
  {
    forall m ensures m in Excess(Elements(s), count) <==> m in Elements(s[..n]) {
      if m in Excess(Elements(s), count) {
        var j :| 0 <= j < |s| && s[j] == m;
        LaterCount(s, j);
        assert s[..n][j] == m;
      }
      if m in Elements(s[..n]) {
        var j :| 0 <= j < n && s[..n][j] == m;
        LaterCount(s, j);
        assert s[j] == m;
      }
    }
    assert Excess(Elements(s), count) == Elements(s[..n]);
    Parted(s, n);
    AsManyElements(s[n..]);
  }

  lemma Parted(s: seq<string>, n: nat)
    requires Increasing(s) && n <= |s|
    ensures Elements(s) - Elements(s[..n]) == Elements(s[n..])
  {
    forall m ensures m in Elements(s) && m !in Elements(s[..n]) <==> m in Elements(s[n..]) {
      if m in Elements(s) && m !in Elements(s[..n]) {
        var j :| 0 <= j < |s| && s[j] == m;
        assert forall i {:trigger s[i]} :: 0 <= i < n ==> s[..n][i] == s[i];
        assert s[n..][j - n] == m;
      }
      if m in Elements(s[n..]) {
        var j :| 0 <= j < |s| - n && s[n..][j] == m;
        assert s[n + j] == m;
        if m in Elements(s[..n]) {
          var i :| 0 <= i < n && s[..n][i] == m;
          LessIsStrict(s[i], s[n + j]);
        }
      }
    }
  }

  // The newest are kept --------------------------------------------------------------------------

  /** What is removed sorts before all that is kept. */
  lemma RemovesOldest(names: set<string>, count: nat, gone: string, left: string)
    requires gone in Excess(names, count) && left in names - Excess(names, count)
    ensures Less(gone, left)
  {
    if !Less(gone, left) {
      LessIsStrict(gone, left);
      forall m | m in Later(names, gone) ensures m in Later(names, left) { LessChains(left, gone, m); }
      Fewer(Later(names, gone), Later(names, left));
    }
  }

  lemma {:induction false} Fewer(a: set<string>, b: set<string>)
    requires a <= b
    ensures |a| <= |b|
    decreases |a|
  {
    if a != {} {
      var x :| x in a;
      Fewer(a - {x}, b - {x});
    }
  }

  /** So the moments of removed backups are all before those of the kept ones. */
  lemma KeepsNewest(names: set<string>, count: nat, a: nat, b: nat)
    requires a < FIVE_DIGITS && b < FIVE_DIGITS
    requires MomentName(a) in Excess(names, count) && MomentName(b) in names - Excess(names, count)
    ensures a < b
  {
    hide MomentName;
    RemovesOldest(names, count, MomentName(a), MomentName(b));
    NamesSort(a, b);
  }

  /** No moment from one up to another is free. */
  predicate AllTaken(entries: map<string, bool>, from: nat, to: nat) {
    forall m {:trigger MomentName(m)} :: from <= m < to ==> MomentName(m) in entries
  }

  /** Removal stopped at `n`, which cannot be removed: only older backups are gone. */
  predicate StoppedAt(before: map<string, bool>, after: map<string, bool>, stuck: set<string>, count: nat, n: string) {
    && n in Excess(Complete(before), count) && n in stuck
    && after == before - Earlier(Complete(before), n)
  }

  // The directory --------------------------------------------------------------------------------

  class BackupDir {
    var entries: map<string, bool>

    /** Remove entries in order, up to the first that cannot be removed. */
    method RemoveInOrder(names: seq<string>, stuck: set<string>) returns (n: nat)
      modifies this
      ensures n <= |names| && entries == old(entries) - Elements(names[..n])
      ensures Elements(names[..n]) !! stuck && (n < |names| ==> names[n] in stuck)
    {
      n := 0;
      while n < |names| && names[n] !in stuck
        invariant n <= |names| && entries == old(entries) - Elements(names[..n])
        invariant Elements(names[..n]) !! stuck
      {
        entries := entries - {names[n]};
        OneMoreElement(names, n);
        n := n + 1;
      }
    }

    /** Remove the oldest complete backups beyond the newest `keep`, or beyond the newest if `keep` is
        zero, oldest first, giving up at the first that cannot be removed. */
    method ApplyRetention(keep: nat, stuck: set<string>) returns (ok: bool)
      modifies this
      ensures var all := Complete(old(entries));
              && (keep >= 1 ==> (ok <==> Excess(all, keep) !! stuck))
              && (keep == 0 ==> (ok <==> Excess(all, 1) !! stuck))
      ensures ok && keep >= 1 ==> entries == old(entries) - Excess(Complete(old(entries)), keep)
      ensures ok && keep == 0 ==> entries == old(entries) - Excess(Complete(old(entries)), 1)
      ensures ok && keep >= 1 ==> |Complete(entries)| == Least(|Complete(old(entries))|, keep)
      ensures ok && keep == 0 ==> |Complete(entries)| == Least(|Complete(old(entries))|, 1)
      ensures !ok && keep >= 1 ==> exists n :: StoppedAt(old(entries), entries, stuck, keep, n)
      ensures !ok && keep == 0 ==> exists n :: StoppedAt(old(entries), entries, stuck, 1, n)
      ensures ok && keep >= 1 ==>
                forall n {:trigger n in entries} :: n in entries <==>
                  n in old(entries) && (n in Complete(old(entries)) ==> |Later(Complete(old(entries)), n)| < keep)
    {
      hide Less, IsMomentName, Increasing, Excess, Elements, Earlier;
      var backups := Sorted(Complete(entries));
      AsManyElements(backups);
      var count := if keep == 0 then 1 else keep;
      var excess := if |backups| < count then 0 else |backups| - count;
      ExcessIsPrefix(backups, count, excess);
      var n := RemoveInOrder(backups[..excess], stuck);
      ok := n == excess;
      assert backups[..excess][..n] == backups[..n];
      if ok {
        assert Complete(entries) == Complete(old(entries)) - Excess(Complete(old(entries)), count);
        forall n ensures n in Excess(Complete(old(entries)), count) <==>
                           n in Complete(old(entries)) && |Later(Complete(old(entries)), n)| >= count
        {
          InExcess(Complete(old(entries)), count, n);
        }
      } else {
        OlderThan(backups, n);
        Within(backups[..excess], n);
        assert StoppedAt(old(entries), entries, stuck, count, backups[n]);
      }
    }

    /** Take a backup at the first free moment from `now` on, then apply the retention. `built` says
        whether the copy succeeded. The name is returned unless something failed. */
    method RunBackup(now: nat, built: bool, keep: nat, stuck: set<string>) returns (r: Option<string>, moment: nat)
      modifies this
      ensures now <= moment && MomentName(moment) !in old(entries) && AllTaken(old(entries), now, moment)
      ensures !built ==> r == None && entries == old(entries)
      ensures var there := old(entries)[MomentName(moment) := true];
              && (keep >= 1 ==> (r.Some? <==> built && Excess(Complete(there), keep) !! stuck))
              && (keep == 0 ==> (r.Some? <==> built && Excess(Complete(there), 1) !! stuck))
              && (r.Some? && keep >= 1 ==> entries == there - Excess(Complete(there), keep))
              && (r.Some? && keep == 0 ==> entries == there - Excess(Complete(there), 1))
              && (built && r.None? && keep >= 1 ==> exists n :: StoppedAt(there, entries, stuck, keep, n))
              && (built && r.None? && keep == 0 ==> exists n :: StoppedAt(there, entries, stuck, 1, n))
      ensures r.Some? ==> r.value == MomentName(moment)
    {
      hide MomentName, Excess, StoppedAt, SecondsOf, Complete;
      moment := now;
      ghost var tried: set<string> := {};
      while MomentName(moment) in entries
        invariant now <= moment && entries == old(entries) && AllTaken(entries, now, moment)
        invariant tried <= entries.Keys && |tried| == moment - now
        invariant forall n {:trigger n in tried} :: n in tried ==> |n| >= 16 && SecondsOf(n) < moment
        decreases |entries.Keys| - (moment - now)
      {
        NamesReadBack(moment);
        Fewer(tried + {MomentName(moment)}, entries.Keys);
        tried := tried + {MomentName(moment)};
        moment := moment + 1;
      }
      if !built { return None, moment; }
      var name := MomentName(moment);
      entries := entries[name := true];
      var ok := ApplyRetention(keep, stuck);
      r := if ok then Some(name) else None;
    }
  }

  /** Whether a backup outlives the retention that follows it: exactly when it is too late to be
      recognized, or too few recognized backups are later. A clock set back can therefore cost the
      new backup. */
  lemma NewBackupStays(entries: map<string, bool>, moment: nat, keep: nat)
    requires MomentName(moment) !in entries
    ensures var name := MomentName(moment);
            var all := Complete(entries[name := true]);
            && (keep >= 1 ==>
                  (name !in Excess(all, keep) <==> moment >= FIVE_DIGITS || |Later(Complete(entries), name)| < keep))
            && (keep == 0 ==>
                  (name !in Excess(all, 1) <==> moment >= FIVE_DIGITS || Later(Complete(entries), name) == {}))
  {
    hide MomentName, IsMomentName;
    Recognized(moment);
    var name := MomentName(moment);
    var all := Complete(entries[name := true]);
    LessIsStrict(name, name);
    assert Later(all, name) == Later(Complete(entries), name);
  }

  /** What counts as a complete backup, character by character: a manifest, and a name of eight digits,
      a `T`, six digits and a `Z`. */
  lemma CompleteSpelled(entries: map<string, bool>, n: string)
    ensures n in Complete(entries) <==>
              && n in entries && entries[n]
              && exists day, time :: n == day + "T" + time + "Z" && |day| == 8 && |time| == 6 && Digits(day) && Digits(time)
  {
    if n in Complete(entries) {
      var day, time := n[..8], n[9..15];
      assert n == day + "T" + time + "Z";
    }
    if day, time :| n == day + "T" + time + "Z" && |day| == 8 && |time| == 6 && Digits(day) && Digits(time) {
      assert forall i {:trigger n[i]} :: 0 <= i < 8 ==> n[i] == day[i];
      assert forall i {:trigger n[i]} :: 9 <= i < 15 ==> n[i] == time[i - 9];
    }
  }
}
