/**
 * Python's `str.split(sep)` with a one-character separator, and its inverse
 * `sep.join(pieces)`, on strings as sequences of characters.
 */
module Text {

  /** Position of the first `c` in `s`, or `|s|` when `c` does not occur. */
  function Find(s: string, c: char): (i: nat)
    ensures i <= |s|
    ensures i < |s| ==> s[i] == c
    ensures forall k :: 0 <= k < i ==> s[k] != c
  {
    if s == [] || s[0] == c then 0 else 1 + Find(s[1..], c)
  }

  /** `Find` stops before the end exactly when `c` occurs. */
  lemma FindOccurs(s: string, c: char)
    ensures Find(s, c) < |s| <==> c in s
  {
    if Find(s, c) == |s| {
      assert forall k :: 0 <= k < |s| ==> s[k] != c;
    }
  }

  /** `s.split(sep)`: the maximal pieces of `s` between occurrences of `sep`. */
  function Split(s: string, sep: char): (pieces: seq<string>)
    ensures |pieces| >= 1
    decreases |s|
  {
    var i := Find(s, sep);
    if i == |s| then [s] else [s[..i]] + Split(s[i + 1..], sep)
  }

  /** `sep.join(pieces)` for a non-empty list of pieces. */
  function Join(pieces: seq<string>, sep: char): string
    requires |pieces| >= 1
  {
    if |pieces| == 1 then pieces[0]
    else pieces[0] + [sep] + Join(pieces[1..], sep)
  }

  /** When the first separator is at `i`, `Split` cuts there. */
  lemma SplitAt(s: string, sep: char, i: nat)
    requires i < |s| && s[i] == sep
    requires forall k :: 0 <= k < i ==> s[k] != sep
    ensures Find(s, sep) == i
    ensures Split(s, sep) == [s[..i]] + Split(s[i + 1..], sep)
  {
  }

  /** A string without the separator is a single piece. */
  lemma SplitNone(s: string, sep: char)
    requires sep !in s
    ensures Split(s, sep) == [s]
  {
    FindOccurs(s, sep);
  }

  /** No piece of a split contains the separator. */
  lemma {:induction false} SplitPiecesLackSeparator(s: string, sep: char)
    ensures forall k :: 0 <= k < |Split(s, sep)| ==> sep !in Split(s, sep)[k]
    decreases |s|
  {
    var i := Find(s, sep);
    FindOccurs(s[..i], sep);
    assert Find(s[..i], sep) == i;
    if i < |s| {
      SplitPiecesLackSeparator(s[i + 1..], sep);
    }
  }

  /** Joining the pieces of a split gives back the original string. */
  lemma {:induction false} JoinSplit(s: string, sep: char)
    ensures Join(Split(s, sep), sep) == s
    decreases |s|
  {
    var i := Find(s, sep);
    if i < |s| {
      var rest := s[i + 1..];
      var pieces := Split(s, sep);
      assert pieces[0] == s[..i] && pieces[1..] == Split(rest, sep);
      JoinSplit(rest, sep);
      assert Join(pieces, sep) == s[..i] + [sep] + rest;
      assert s == s[..i] + [s[i]] + rest;
    }
  }

  /** Splitting a join of separator-free pieces gives back the pieces. */
  lemma {:induction false} SplitJoin(pieces: seq<string>, sep: char)
    requires |pieces| >= 1
    requires forall k :: 0 <= k < |pieces| ==> sep !in pieces[k]
    ensures Split(Join(pieces, sep), sep) == pieces
    decreases |pieces|
  {
    var head := pieces[0];
    if |pieces| == 1 {
      SplitNone(head, sep);
    } else {
      var tail := Join(pieces[1..], sep);
      var s := head + [sep] + tail;
      assert forall k :: 0 <= k < |head| ==> s[k] == head[k];
      assert s[..|head|] == head;
      assert s[|head| + 1..] == tail;
      SplitAt(s, sep, |head|);
      SplitJoin(pieces[1..], sep);
      assert pieces == [head] + pieces[1..];
    }
  }

  /** Appending a character other than the separator extends the last piece. */
  lemma {:induction false} SplitSnocOther(t: string, sep: char, c: char)
    requires c != sep
    ensures var before := Split(t, sep);
      Split(t + [c], sep) == before[..|before| - 1] + [before[|before| - 1] + [c]]
    decreases |t|
  {
    var s := t + [c];
    var i := Find(t, sep);
    if i < |t| {
      SplitAt(s, sep, i);
      assert s[..i] == t[..i];
      assert s[i + 1..] == t[i + 1..] + [c];
      SplitSnocOther(t[i + 1..], sep, c);
    } else {
      assert Find(s, sep) == |s|;
    }
  }

  /** A join ends with its last piece. */
  lemma {:induction false} JoinEndsWithLast(pieces: seq<string>, sep: char)
    requires |pieces| >= 1
    ensures var joined, last := Join(pieces, sep), pieces[|pieces| - 1];
      |last| <= |joined| && joined[|joined| - |last|..] == last
    decreases |pieces|
  {
    if |pieces| > 1 {
      var tail := pieces[1..];
      JoinEndsWithLast(tail, sep);
      var joined, rest, last := Join(pieces, sep), Join(tail, sep), pieces[|pieces| - 1];
      assert tail[|tail| - 1] == last;
      assert joined == pieces[0] + [sep] + rest;
      assert joined[|joined| - |last|..] == rest[|rest| - |last|..];
    }
  }

  /** The last piece of a split is a suffix of the string. */
  lemma LastPieceIsSuffix(s: string, sep: char)
    ensures var pieces := Split(s, sep);
      |pieces[|pieces| - 1]| <= |s| && s[|s| - |pieces[|pieces| - 1]|..] == pieces[|pieces| - 1]
  {
    var pieces := Split(s, sep);
    JoinSplit(s, sep);
    JoinEndsWithLast(pieces, sep);
  }

  /** The text of `s` before the first `c`, or all of `s` when there is none. */
  function Before(s: string, c: char): (prefix: string)
    ensures c !in prefix
    ensures |prefix| <= |s| && s[..|prefix|] == prefix
    ensures |prefix| < |s| ==> s[|prefix|] == c
  {
    var i := Find(s, c);
    FindOccurs(s[..i], c);
    assert Find(s[..i], c) == i;
    s[..i]
  }

  /** The text of `s` after its first `c`. */
  function After(s: string, c: char): (suffix: string)
    requires c in s
    ensures s == Before(s, c) + [c] + suffix
  {
    FindOccurs(s, c);
    var i := Find(s, c);
    assert s == s[..i] + [s[i]] + s[i + 1..];
    s[i + 1..]
  }

  /** A string without `c` is all "before". */
  lemma BeforeNone(s: string, c: char)
    requires c !in s
    ensures Before(s, c) == s
  {
    FindOccurs(s, c);
  }

  /** Around a first `c` placed between `x` and `y`, `Before` is `x` and `After` is `y`. */
  lemma CutAt(x: string, c: char, y: string)
    requires c !in x
    ensures c in x + [c] + y
    ensures Before(x + [c] + y, c) == x && After(x + [c] + y, c) == y
  {
    var s := x + [c] + y;
    assert s[|x|] == c;
    assert forall k :: 0 <= k < |x| ==> s[k] == x[k];
    assert s[..|x|] == x;
    assert s[|x| + 1..] == y;
  }

  /**
   * The first piece of a split is the text before the first separator; when
   * there is a separator, the second piece is the text between the first and
   * the second separator (or the end).
   */
  lemma SplitFields(s: string, sep: char)
    ensures Split(s, sep)[0] == Before(s, sep)
    ensures |Split(s, sep)| >= 2 <==> sep in s
    ensures sep in s ==> Split(s, sep)[1] == Before(After(s, sep), sep)
  {
    FindOccurs(s, sep);
    var i := Find(s, sep);
    if i < |s| {
      assert After(s, sep) == s[i + 1..];
    }
  }
}
