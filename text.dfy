/**
 * The handful of Go `strings` operations the programs rely on:
 * `strings.Split` and `strings.SplitN(s, sep, 2)` with a one-character
 * separator, `strings.TrimSpace` and `strings.Contains`.
 * Strings are sequences of Unicode code points (Go's runes).
 */
module Text {
  import opened Results

  /** `unicode.IsSpace`: the Latin-1 spaces plus Unicode's White_Space set. */
  predicate IsSpace(c: char) {
    || c == ' ' || c == '\t' || c == '\n' || c == '\U{000B}' || c == '\U{000C}' || c == '\r'
    || c == '\U{0085}' || c == '\U{00A0}' || c == '\U{1680}'
    || ('\U{2000}' <= c <= '\U{200A}')
    || c == '\U{2028}' || c == '\U{2029}' || c == '\U{202F}' || c == '\U{205F}' || c == '\U{3000}'
  }

  predicate AllSpace(s: string) {
    forall i :: 0 <= i < |s| ==> IsSpace(s[i])
  }

  /** Neither end of `s` is a space character. */
  predicate Trimmed(s: string) {
    s == [] || (!IsSpace(s[0]) && !IsSpace(s[|s| - 1]))
  }

  function TrimLeft(s: string): string {
    if s != [] && IsSpace(s[0]) then TrimLeft(s[1..]) else s
  }

  function TrimRight(s: string): string {
    if s != [] && IsSpace(s[|s| - 1]) then TrimRight(s[..|s| - 1]) else s
  }

  /** TrimLeft cuts off the longest all-space prefix. */
  lemma {:induction false} TrimLeftSpec(s: string)
    ensures |TrimLeft(s)| <= |s| && TrimLeft(s) == s[|s| - |TrimLeft(s)|..]
    ensures AllSpace(s[..|s| - |TrimLeft(s)|])
    ensures TrimLeft(s) == [] || !IsSpace(TrimLeft(s)[0])
  {
    if s != [] && IsSpace(s[0]) {
      TrimLeftSpec(s[1..]);
      var t := TrimLeft(s[1..]);
      assert s[..|s| - |t|] == [s[0]] + s[1..][..|s| - 1 - |t|];
    }
  }

  /** TrimRight cuts off the longest all-space suffix. */
  lemma {:induction false} TrimRightSpec(s: string)
    ensures |TrimRight(s)| <= |s| && TrimRight(s) == s[..|TrimRight(s)|]
    ensures AllSpace(s[|TrimRight(s)|..])
    ensures TrimRight(s) == [] || !IsSpace(TrimRight(s)[|TrimRight(s)| - 1])
  {
    if s != [] && IsSpace(s[|s| - 1]) {
      TrimRightSpec(s[..|s| - 1]);
      var t := TrimRight(s[..|s| - 1]);
      assert s[|t|..] == s[..|s| - 1][|t|..] + [s[|s| - 1]];
    }
  }

  /**
   * `strings.TrimSpace`: `s` with its leading and trailing spaces removed;
   * neither end of the result is a space (TrimSpaceSlice: it is a slice of
   * `s` and all that is cut off is space).
   */
  function TrimSpace(s: string): (t: string)
    ensures Trimmed(t)
  {
    var l := TrimLeft(s);
    TrimLeftSpec(s);
    TrimRightSpec(l);
    var t := TrimRight(l);
    assert t == [] || !IsSpace(t[0]) by {
      if t != [] { assert t[0] == l[0]; }
    }
    t
  }

  /** TrimSpace removes only spaces, and only at the two ends. */
  lemma TrimSpaceSlice(s: string) returns (i: int)
    ensures 0 <= i <= |s| - |TrimSpace(s)|
    ensures TrimSpace(s) == s[i..i + |TrimSpace(s)|]
    ensures AllSpace(s[..i]) && AllSpace(s[i + |TrimSpace(s)|..])
  {
    var l := TrimLeft(s);
    var t := TrimRight(l);
    TrimLeftSpec(s);
    TrimRightSpec(l);
    assert TrimSpace(s) == t;
    i := |s| - |l|;
    assert t == s[i..i + |t|];
    assert s[i + |t|..] == l[|t|..];
  }

  lemma AllSpaceConcat(a: string, b: string)
    requires AllSpace(a) && AllSpace(b)
    ensures AllSpace(a + b)
  {
    assert forall i :: 0 <= i < |a + b| ==> (a + b)[i] == (if i < |a| then a[i] else b[i - |a|]);
  }

  /**
   * Trimming undoes padding: a string whose ends are not spaces, padded on
   * either side with spaces, trims back to itself.
   */
  lemma {:induction false} TrimPadded(left: string, s: string, right: string)
    requires AllSpace(left) && AllSpace(right) && Trimmed(s)
    ensures TrimSpace(left + s + right) == s
  {
    if s == [] {
      assert left + s + right == left + right;
      AllSpaceConcat(left, right);
      TrimLeftSpec(left + right);
    } else {
      assert (s + right)[0] == s[0];
      assert left + s + right == left + (s + right);
      LeftOfPadded(left, s + right);
      RightOfPadded(s, right);
    }
  }

  lemma {:induction false} LeftOfPadded(left: string, s: string)
    requires AllSpace(left) && (s == [] || !IsSpace(s[0]))
    ensures TrimLeft(left + s) == s
  {
    if left != [] {
      assert (left + s)[1..] == left[1..] + s;
      LeftOfPadded(left[1..], s);
    } else {
      assert left + s == s;
    }
  }

  lemma {:induction false} RightOfPadded(s: string, right: string)
    requires AllSpace(right) && (s == [] || !IsSpace(s[|s| - 1]))
    ensures TrimRight(s + right) == s
  {
    if right != [] {
      assert (s + right)[..|s + right| - 1] == s + right[..|right| - 1];
      RightOfPadded(s, right[..|right| - 1]);
    } else {
      assert s + right == s;
    }
  }

  /**
   * `strings.SplitN(s, sep, 2)` for a one-character separator: the text before
   * the FIRST occurrence of `sep` and the text after it, or None when `sep`
   * does not occur (Go then returns a single part).
   */
  function SplitFirst(s: string, sep: char): (r: Option<(string, string)>)
    ensures r.None? <==> sep !in s
    ensures r.Some? ==> sep !in r.value.0 && s == r.value.0 + [sep] + r.value.1
  {
    if s == [] then None
    else if s[0] == sep then Some(([], s[1..]))
    else match SplitFirst(s[1..], sep)
      case None => None
      case Some(parts) => Some(([s[0]] + parts.0, parts.1))
  }

  /** The first-occurrence split is the only split whose head lacks the separator. */
  lemma {:induction false} SplitFirstUnique(head: string, sep: char, tail: string)
    requires sep !in head
    ensures SplitFirst(head + [sep] + tail, sep) == Some((head, tail))
  {
    if head != [] {
      assert (head + [sep] + tail)[0] == head[0];
      assert (head + [sep] + tail)[1..] == head[1..] + [sep] + tail;
      assert head == [head[0]] + head[1..];
      SplitFirstUnique(head[1..], sep, tail);
    } else {
      assert head + [sep] + tail == [sep] + tail;
    }
  }

  /**
   * `strings.Split(s, sep)` for a one-character separator: the pieces between
   * separators, so there is always at least one piece (`Split("", sep) == [""]`).
   */
  function Split(s: string, sep: char): (pieces: seq<string>)
    ensures |pieces| >= 1
    decreases |s|
  {
    match SplitFirst(s, sep)
    case None => [s]
    case Some(parts) => [parts.0] + Split(parts.1, sep)
  }

  /** No piece of a split contains the separator. */
  lemma {:induction false} SplitPiecesLackSeparator(s: string, sep: char)
    ensures forall k :: 0 <= k < |Split(s, sep)| ==> sep !in Split(s, sep)[k]
    decreases |s|
  {
    match SplitFirst(s, sep)
    case None =>
    case Some(parts) =>
      SplitPiecesLackSeparator(parts.1, sep);
      var pieces, tail := Split(s, sep), Split(parts.1, sep);
      assert forall k :: 1 <= k < |pieces| ==> pieces[k] == tail[k - 1];
  }

  /** The pieces joined back with the separator (the inverse of Split). */
  function JoinWith(pieces: seq<string>, sep: char): string
    requires |pieces| >= 1
  {
    if |pieces| == 1 then pieces[0] else pieces[0] + [sep] + JoinWith(pieces[1..], sep)
  }

  /** Joining the pieces of a split gives back the original string. */
  lemma {:induction false} JoinSplit(s: string, sep: char)
    ensures JoinWith(Split(s, sep), sep) == s
    decreases |s|
  {
    match SplitFirst(s, sep)
    case None =>
    case Some(parts) =>
      JoinSplit(parts.1, sep);
  }

  /** Splitting a join of separator-free pieces gives back the pieces. */
  lemma {:induction false} SplitJoin(pieces: seq<string>, sep: char)
    requires |pieces| >= 1
    requires forall k :: 0 <= k < |pieces| ==> sep !in pieces[k]
    ensures Split(JoinWith(pieces, sep), sep) == pieces
  {
    if |pieces| > 1 {
      SplitFirstUnique(pieces[0], sep, JoinWith(pieces[1..], sep));
      SplitJoin(pieces[1..], sep);
    } else {
      assert SplitFirst(pieces[0], sep).None?;
    }
  }

  /** A separator splits the string into the pieces of either side. */
  lemma {:induction false} SplitAtSeparator(a: string, sep: char, b: string)
    ensures Split(a + [sep] + b, sep) == Split(a, sep) + Split(b, sep)
    decreases |a|
  {
    match SplitFirst(a, sep)
    case None =>
      SplitFirstUnique(a, sep, b);
    case Some(parts) =>
      var h, t := parts.0, parts.1;
      assert a + [sep] + b == h + [sep] + (t + [sep] + b);
      SplitFirstUnique(h, sep, t + [sep] + b);
      assert Split(a + [sep] + b, sep) == [h] + Split(t + [sep] + b, sep);
      SplitAtSeparator(t, sep, b);
  }

  /** `strings.HasPrefix`. */
  predicate HasPrefix(s: string, prefix: string) {
    |prefix| <= |s| && s[..|prefix|] == prefix
  }

  /** `strings.Contains`: some position of `s` starts with `sub`. */
  predicate Contains(s: string, sub: string)
    decreases |s|
  {
    HasPrefix(s, sub) || (s != [] && Contains(s[1..], sub))
  }

  /** `sub` occurs in `s` at position `i`. */
  predicate OccursAt(s: string, sub: string, i: int) {
    0 <= i && i + |sub| <= |s| && s[i..i + |sub|] == sub
  }

  /** Contains agrees with the position-based definition, in both directions. */
  lemma {:induction false} ContainsIff(s: string, sub: string)
    ensures Contains(s, sub) <==> exists i :: OccursAt(s, sub, i)
    decreases |s|
  {
    if Contains(s, sub) {
      if HasPrefix(s, sub) {
        assert OccursAt(s, sub, 0);
      } else {
        ContainsIff(s[1..], sub);
        var i :| OccursAt(s[1..], sub, i);
        assert s[i + 1..i + 1 + |sub|] == s[1..][i..i + |sub|];
        assert OccursAt(s, sub, i + 1);
      }
    }
    if exists i :: OccursAt(s, sub, i) {
      var i :| OccursAt(s, sub, i);
      if i == 0 {
        assert HasPrefix(s, sub);
      } else {
        assert s[1..][i - 1..i - 1 + |sub|] == s[i..i + |sub|];
        assert OccursAt(s[1..], sub, i - 1);
        ContainsIff(s[1..], sub);
      }
    }
  }

  /** A string contains every word written inside it. */
  lemma ContainsInfix(pre: string, word: string, post: string)
    ensures Contains(pre + word + post, word)
  {
    var s := pre + word + post;
    assert s[|pre|..|pre| + |word|] == word;
    assert OccursAt(s, word, |pre|);
    ContainsIff(s, word);
  }
}
