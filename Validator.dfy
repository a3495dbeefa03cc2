/**
 * The shape check `is_valid_ip`: the pattern `^(?:[0-9]{1,3}\.){3}[0-9]{1,3}$`
 * applied with Python's `re.match`. The pattern is recognised group by group:
 * a run of one to three ASCII digits, then a dot before each of the first
 * three groups' successors, then Python's `$`, which holds at the end of the
 * string and also just before one final newline.
 */
module Validator {
  import opened Text

  /** `[0-9]`: ASCII digits only, not every Unicode decimal digit. */
  predicate IsDigit(c: char) {
    '0' <= c <= '9'
  }

  /** Length of the run of digits at the start of `s`. */
  function DigitRun(s: string): (n: nat)
    ensures n <= |s|
  {
    if s != [] && IsDigit(s[0]) then 1 + DigitRun(s[1..]) else 0
  }

  /** The run is all digits and cannot be extended. */
  lemma {:induction false} DigitRunIsMaximal(s: string)
    ensures forall k :: 0 <= k < DigitRun(s) ==> IsDigit(s[k])
    ensures DigitRun(s) < |s| ==> !IsDigit(s[DigitRun(s)])
  {
    if s != [] && IsDigit(s[0]) {
      DigitRunIsMaximal(s[1..]);
    }
  }

  /** Python's `$` without MULTILINE: the end, or a lone final newline. */
  predicate AtEnd(rest: string) {
    rest == [] || rest == "\n"
  }

  /**
   * `s` is `groups` digit groups of length one to three separated by dots,
   * followed by `$`. The greedy digit run is exact: a shorter match would
   * leave a digit where a dot or the end is required.
   */
  predicate MatchGroups(s: string, groups: nat)
    requires groups >= 1
    decreases groups
  {
    var n := DigitRun(s);
    && 1 <= n <= 3
    && if groups == 1 then AtEnd(s[n..])
       else n < |s| && s[n] == '.' && MatchGroups(s[n + 1..], groups - 1)
  }

  /** `is_valid_ip(ip)`. */
  predicate IsValidIp(ip: string) {
    MatchGroups(ip, 4)
  }

  // Reference definition: the pieces of the string between dots.

  /** One group of the dotted-quad shape: one to three ASCII digits. */
  predicate IsGroup(g: string) {
    1 <= |g| <= 3 && forall k :: 0 <= k < |g| ==> IsDigit(g[k])
  }

  /** Exactly four pieces between dots, each a group; no range check. */
  predicate DottedQuad(q: string) {
    var pieces := Split(q, '.');
    |pieces| == 4 && forall k :: 0 <= k < 4 ==> IsGroup(pieces[k])
  }

  /** What `re.match` with a trailing `$` accepts: a dotted quad, optionally followed by one newline. */
  predicate QuadShape(s: string) {
    || DottedQuad(s)
    || (|s| >= 1 && s[|s| - 1] == '\n' && DottedQuad(s[..|s| - 1]))
  }

  /** The last of several pieces may carry the newline that `$` lets through. */
  predicate LastGroup(g: string) {
    || IsGroup(g)
    || (|g| >= 1 && g[|g| - 1] == '\n' && IsGroup(g[..|g| - 1]))
  }

  /** Piecewise reading of `MatchGroups`. */
  predicate GroupPieces(s: string, groups: nat)
    requires groups >= 1
  {
    var pieces := Split(s, '.');
    && |pieces| == groups
    && (forall k :: 0 <= k < groups - 1 ==> IsGroup(pieces[k]))
    && LastGroup(pieces[groups - 1])
  }

  /** A group is exactly the digit run it starts with. */
  lemma GroupIsDigitRun(s: string, n: nat)
    requires n <= |s| && IsGroup(s[..n])
    requires n == |s| || !IsDigit(s[n])
    ensures DigitRun(s) == n
  {
    DigitRunIsMaximal(s);
    assert forall k :: 0 <= k < n ==> s[..n][k] == s[k];
  }

  /** With a single group left, the recogniser and the pieces agree. */
  lemma MatchLastGroup(s: string)
    ensures MatchGroups(s, 1) <==> GroupPieces(s, 1)
  {
    var n := DigitRun(s);
    DigitRunIsMaximal(s);
    if MatchGroups(s, 1) {
      assert forall k :: 0 <= k < n ==> s[..n][k] == s[k];
      if s[n..] == [] {
        assert s == s[..n];
      } else {
        assert s == s[..n] + "\n";
        assert s[..|s| - 1] == s[..n];
      }
      assert Split(s, '.') == [s];
    }
    if GroupPieces(s, 1) {
      if '.' in s { SplitFields(s, '.'); }
      assert Split(s, '.') == [s];
      if IsGroup(s) {
        assert s[..|s|] == s;
        GroupIsDigitRun(s, |s|);
      } else {
        GroupIsDigitRun(s, |s| - 1);
        assert s[n..] == "\n";
      }
    }
  }

  /** With more groups left, the recogniser reads the text before the first dot as a group. */
  lemma MatchStep(s: string, groups: nat)
    requires groups >= 2
    ensures MatchGroups(s, groups) <==>
      '.' in s && IsGroup(Before(s, '.')) && MatchGroups(After(s, '.'), groups - 1)
  {
    var n := DigitRun(s);
    DigitRunIsMaximal(s);
    if MatchGroups(s, groups) {
      assert forall k :: 0 <= k < n ==> s[..n][k] == s[k];
      SplitAt(s, '.', n);
      assert Before(s, '.') == s[..n];
      assert After(s, '.') == s[n + 1..];
    }
    if '.' in s && IsGroup(Before(s, '.')) {
      GroupIsDigitRun(s, |Before(s, '.')|);
    }
  }

  /** With more groups left, the first piece is the text before the first dot. */
  lemma PiecesStep(s: string, groups: nat)
    requires groups >= 2
    ensures GroupPieces(s, groups) <==>
      '.' in s && IsGroup(Before(s, '.')) && GroupPieces(After(s, '.'), groups - 1)
  {
    SplitFields(s, '.');
    if '.' in s {
      var pieces, rest := Split(s, '.'), Split(After(s, '.'), '.');
      assert pieces == [Before(s, '.')] + rest;
      assert forall k :: 0 <= k < |rest| ==> rest[k] == pieces[k + 1];
    }
  }

  /** The recogniser reads the pieces between dots one at a time. */
  lemma {:induction false} MatchGroupsPieces(s: string, groups: nat)
    requires groups >= 1
    ensures MatchGroups(s, groups) <==> GroupPieces(s, groups)
    decreases groups
  {
    if groups == 1 {
      MatchLastGroup(s);
    } else {
      calc {
        MatchGroups(s, groups);
        == { MatchStep(s, groups); }
        '.' in s && IsGroup(Before(s, '.')) && MatchGroups(After(s, '.'), groups - 1);
        == { if '.' in s { MatchGroupsPieces(After(s, '.'), groups - 1); } }
        '.' in s && IsGroup(Before(s, '.')) && GroupPieces(After(s, '.'), groups - 1);
        == { PiecesStep(s, groups); }
        GroupPieces(s, groups);
      }
    }
  }

  /** A group never ends in a newline, so the newline case of the last piece is exact. */
  lemma LastGroupNewline(g: string)
    ensures LastGroup(g + "\n") <==> IsGroup(g)
    ensures !IsGroup(g + "\n")
  {
    assert (g + "\n")[..|g|] == g;
    assert (g + "\n")[|g|] == '\n';
  }

  /** Without a final newline, the last piece cannot carry one. */
  lemma PiecesWithoutNewline(ip: string)
    requires |ip| == 0 || ip[|ip| - 1] != '\n'
    ensures GroupPieces(ip, 4) <==> DottedQuad(ip)
  {
    var pieces := Split(ip, '.');
    var last := pieces[|pieces| - 1];
    LastPieceIsSuffix(ip, '.');
    if |last| >= 1 {
      assert last[|last| - 1] == ip[|ip| - 1];
    }
  }

  /** With a final newline, the last piece carries it and the rest is a dotted quad. */
  lemma PiecesWithNewline(t: string)
    ensures GroupPieces(t + "\n", 4) <==> DottedQuad(t)
    ensures !DottedQuad(t + "\n")
  {
    var before, after := Split(t, '.'), Split(t + "\n", '.');
    SplitSnocOther(t, '.', '\n');
    var last := before[|before| - 1];
    assert after[|before| - 1] == last + "\n";
    assert forall k :: 0 <= k < |before| - 1 ==> after[k] == before[k];
    LastGroupNewline(last);
  }

  /**
   * `is_valid_ip` accepts exactly the strings that are four groups of one to
   * three ASCII digits joined by three dots, optionally followed by one
   * newline (the `$` anchor).
   */
  lemma IsValidIpShape(ip: string)
    ensures IsValidIp(ip) <==> QuadShape(ip)
  {
    MatchGroupsPieces(ip, 4);
    if |ip| >= 1 && ip[|ip| - 1] == '\n' {
      var t := ip[..|ip| - 1];
      assert ip == t + "\n";
      PiecesWithNewline(t);
    } else {
      PiecesWithoutNewline(ip);
    }
  }

  /** Every four groups joined by dots pass, with or without a trailing newline. */
  lemma AcceptsJoinedGroups(groups: seq<string>)
    requires |groups| == 4
    requires forall k :: 0 <= k < 4 ==> IsGroup(groups[k])
    ensures IsValidIp(Join(groups, '.'))
    ensures IsValidIp(Join(groups, '.') + "\n")
  {
    var q := Join(groups, '.');
    forall k | 0 <= k < 4 ensures '.' !in groups[k] {
      assert IsGroup(groups[k]);
    }
    SplitJoin(groups, '.');
    IsValidIpShape(q);
    IsValidIpShape(q + "\n");
    assert (q + "\n")[..|q + "\n"| - 1] == q;
  }

  /**
   * The converse of `AcceptsJoinedGroups`: every accepted string is four
   * groups joined by dots, with or without a trailing newline.
   */
  lemma AcceptedIsJoinedGroups(ip: string)
    requires IsValidIp(ip)
    ensures var q := if ip[|ip| - 1] == '\n' then ip[..|ip| - 1] else ip;
      var groups := Split(q, '.');
      && |groups| == 4
      && (forall k :: 0 <= k < 4 ==> IsGroup(groups[k]))
      && (ip == Join(groups, '.') || ip == Join(groups, '.') + "\n")
  {
    IsValidIpShape(ip);
    var q := if ip[|ip| - 1] == '\n' then ip[..|ip| - 1] else ip;
    if ip[|ip| - 1] == '\n' {
      assert ip == q + "\n";
      PiecesWithNewline(q);
    }
    assert DottedQuad(q);
    JoinSplit(q, '.');
  }

  /** A leading group followed by a dot is consumed as one group. */
  lemma MatchGroupThenDot(g: string, rest: string, groups: nat)
    requires IsGroup(g) && groups >= 2
    ensures MatchGroups(g + "." + rest, groups) == MatchGroups(rest, groups - 1)
  {
    var s := g + "." + rest;
    assert s[..|g|] == g;
    GroupIsDigitRun(s, |g|);
    assert s[|g| + 1..] == rest;
  }

  /** A final group is followed only by what `$` admits. */
  lemma MatchFinalGroup(g: string, tail: string)
    requires IsGroup(g) && (tail == [] || !IsDigit(tail[0]))
    ensures MatchGroups(g + tail, 1) == AtEnd(tail)
  {
    var s := g + tail;
    assert s[..|g|] == g;
    GroupIsDigitRun(s, |g|);
    assert s[|g|..] == tail;
  }

  /** Three groups joined by dots, then `tail`: the last three groups of an address. */
  lemma ThreeGroups(b: string, c: string, d: string, tail: string)
    requires IsGroup(b) && IsGroup(c) && IsGroup(d)
    requires tail == [] || !IsDigit(tail[0])
    ensures MatchGroups(b + "." + (c + "." + (d + tail)), 3) <==> AtEnd(tail)
  {
    var r1 := d + tail;
    var r2 := c + "." + r1;
    assert MatchGroups(r2, 2) <==> AtEnd(tail) by {
      MatchFinalGroup(d, tail);
      MatchGroupThenDot(c, r1, 2);
    }
    MatchGroupThenDot(b, r2, 3);
  }

  /**
   * Four groups joined by dots pass exactly when what follows them is
   * admitted by `$`: nothing, or one newline.
   */
  lemma FourGroups(ip: string, a: string, b: string, c: string, d: string, tail: string)
    requires IsGroup(a) && IsGroup(b) && IsGroup(c) && IsGroup(d)
    requires tail == [] || !IsDigit(tail[0])
    requires ip == a + "." + (b + "." + (c + "." + (d + tail)))
    ensures IsValidIp(ip) <==> AtEnd(tail)
  {
    ThreeGroups(b, c, d, tail);
    MatchGroupThenDot(a, b + "." + (c + "." + (d + tail)), 4);
  }

  /**
   * A line read from the console carries no newline, so for it the check is
   * exactly the dotted-quad shape.
   */
  lemma WithoutNewlineIsDottedQuad(ip: string)
    requires '\n' !in ip
    ensures IsValidIp(ip) <==> DottedQuad(ip)
  {
    IsValidIpShape(ip);
    if |ip| >= 1 {
      assert ip[|ip| - 1] in ip;
    }
  }

  // Sample addresses, and the limits of the shape check.

  lemma AcceptsSampleAddress()
    ensures IsValidIp("10.0.0.1")
  {
    FourGroups("10.0.0.1", "10", "0", "0", "1", "");
  }

  /** No numeric range check: every group may be as large as 999. */
  lemma AcceptsOutOfRangeGroups()
    ensures IsValidIp("999.999.999.999")
  {
    FourGroups("999.999.999.999", "999", "999", "999", "999", "");
  }

  /** `$` matches before one final newline ... */
  lemma AcceptsFinalNewline()
    ensures IsValidIp("1.2.3.4\n")
  {
    FourGroups("1.2.3.4\n", "1", "2", "3", "4", "\n");
  }

  /** ... but not before two, nor before any other trailing character. */
  lemma RejectsTwoNewlines()
    ensures !IsValidIp("1.2.3.4\n\n")
  {
    FourGroups("1.2.3.4\n\n", "1", "2", "3", "4", "\n\n");
  }

  lemma RejectsTrailingSpace()
    ensures !IsValidIp("1.2.3.4 ")
  {
    FourGroups("1.2.3.4 ", "1", "2", "3", "4", " ");
  }

  lemma RejectsEmpty() ensures !IsValidIp("") {}
  lemma RejectsThreeGroups() ensures !IsValidIp("10.0.0") {}
  lemma RejectsFiveGroups()
    ensures !IsValidIp("1.2.3.4.5")
  {
    FourGroups("1.2.3.4.5", "1", "2", "3", "4", ".5");
  }

  lemma RejectsLetters() ensures !IsValidIp("abc") {}
  lemma RejectsLongGroup()
    ensures !IsValidIp("1234.1.1.1")
  {
    assert DigitRun("1234.1.1.1") == 4;
  }

  lemma RejectsEmptyGroup() ensures !IsValidIp("1..3.4") {}
  /** ARABIC-INDIC DIGIT ONE is a Unicode decimal digit but not in `[0-9]`. */
  lemma RejectsNonAsciiDigit() ensures !IsValidIp("\U{0661}.2.3.4") {}
}
