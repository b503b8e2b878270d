/** The few JavaScript string operations the page relies on, with their ECMAScript meaning:
    `String.prototype.trim`, `indexOf`, `split` with a non-empty literal separator, and
    `Array.prototype.join`. JavaScript strings are sequences of UTF-16 code units; here a
    string is a `seq<char>` of Unicode scalar values, so a character outside the Basic
    Multilingual Plane is one `char` and a lone surrogate cannot occur. Every separator and
    every whitespace character is in that plane, so trimming and splitting cut at the same
    places either way. */
module Strings {
  import opened Options

  type String = seq<char>

  /** The code points `trim` removes: ECMAScript WhiteSpace (TAB, VT, FF, ZWNBSP and the
      Unicode category Zs) and LineTerminator (LF, CR, LS, PS). */
  predicate IsWhitespace(c: char) {
    || c == '\t' || c == '\n' || c == '\U{000B}' || c == '\U{000C}' || c == '\r'
    || c == ' ' || c == '\U{00A0}' || c == '\U{1680}'
    || ('\U{2000}' <= c <= '\U{200A}')
    || c == '\U{2028}' || c == '\U{2029}' || c == '\U{202F}' || c == '\U{205F}'
    || c == '\U{3000}' || c == '\U{FEFF}'
  }

  /** Every character is whitespace (the empty string included). */
  predicate IsBlank(s: String) {
    forall i :: 0 <= i < |s| ==> IsWhitespace(s[i])
  }

  /** `s` with its leading whitespace removed. */
  function TrimStart(s: String): (r: String)
    ensures |r| <= |s| && r == s[|s| - |r|..]
    ensures IsBlank(s[..|s| - |r|])
    ensures r == [] || !IsWhitespace(r[0])
  {
    if |s| > 0 && IsWhitespace(s[0]) then
      var r := TrimStart(s[1..]);
      assert s[..|s| - |r|] == [s[0]] + s[1..][..|s| - 1 - |r|];
      r
    else s
  }

  /** `s` with its trailing whitespace removed. */
  function TrimEnd(s: String): (r: String)
    ensures |r| <= |s| && r == s[..|r|]
    ensures IsBlank(s[|r|..])
    ensures r == [] || !IsWhitespace(r[|r| - 1])
  {
    if |s| > 0 && IsWhitespace(s[|s| - 1]) then
      var r := TrimEnd(s[..|s| - 1]);
      assert s[|r|..] == s[..|s| - 1][|r|..] + [s[|s| - 1]];
      r
    else s
  }

  /** `String.prototype.trim`. */
  function Trim(s: String): String {
    TrimEnd(TrimStart(s))
  }

  /** `s.trim()` is empty exactly when `s` is blank, which is what `!s.trim()` and
      `s.trim() !== ""` test. */
  lemma TrimEmptyIffBlank(s: String)
    ensures Trim(s) == [] <==> IsBlank(s)
  {
    var t := TrimStart(s);
    var k := |s| - |t|;
    if Trim(s) == [] {
      assert IsBlank(t) by {
        assert t[|Trim(s)|..] == t;
      }
      assert t == [];
      assert s[..k] == s;
    }
    if IsBlank(s) {
      assert t == [];
    }
  }

  /** An occurrence of `sep` starts at position `i` of `s`. */
  predicate MatchAt(s: String, sep: String, i: nat) {
    i + |sep| <= |s| && s[i..i + |sep|] == sep
  }

  /** `s.indexOf(sep, k)` for `k <= |s|`, with -1 written as `None`: the leftmost occurrence at
      or after `k`. */
  function IndexFrom(s: String, sep: String, k: nat): (r: Option<nat>)
    requires k <= |s|
    ensures r.Some? ==> k <= r.value && MatchAt(s, sep, r.value)
    ensures r.Some? ==> forall j :: k <= j < r.value ==> !MatchAt(s, sep, j)
    ensures r.None? ==> forall j :: k <= j <= |s| ==> !MatchAt(s, sep, j)
    decreases |s| - k
  {
    if k + |sep| > |s| then None
    else if MatchAt(s, sep, k) then Some(k)
    else IndexFrom(s, sep, k + 1)
  }

  /** `s.indexOf(sep)`. */
  function IndexOf(s: String, sep: String): Option<nat> {
    IndexFrom(s, sep, 0)
  }

  /** `sep` occurs nowhere in `s`. */
  predicate Free(s: String, sep: String) {
    IndexOf(s, sep).None?
  }

  /** `s.split(sep)` for a non-empty separator: the pieces between the leftmost
      non-overlapping occurrences of `sep`, scanning left to right. */
  function Split(s: String, sep: String): (r: seq<String>)
    requires |sep| > 0
    ensures |r| >= 1
    decreases |s|
  {
    if |s| < |sep| then [s]
    else if s[..|sep|] == sep then [[]] + Split(s[|sep|..], sep)
    else
      var rest := Split(s[1..], sep);
      [[s[0]] + rest[0]] + rest[1..]
  }

  /** `pieces.join(sep)`. */
  function Join(pieces: seq<String>, sep: String): String {
    if |pieces| == 0 then []
    else if |pieces| == 1 then pieces[0]
    else pieces[0] + sep + Join(pieces[1..], sep)
  }

  lemma MatchShift(s: String, sep: String, j: nat)
    requires |s| > 0
    ensures MatchAt(s[1..], sep, j) <==> MatchAt(s, sep, j + 1)
  {
    if j + 1 + |sep| <= |s| {
      assert s[1..][j..j + |sep|] == s[j + 1..j + 1 + |sep|];
    }
  }

  /** Searching `s` when no occurrence starts at 0 is searching its tail, shifted by one. */
  lemma IndexOfTail(s: String, sep: String)
    requires |s| > 0 && !MatchAt(s, sep, 0)
    ensures IndexOf(s, sep) == (match IndexOf(s[1..], sep)
                                case None => None
                                case Some(j) => Some(j + 1))
  {
    var a, b := IndexOf(s, sep), IndexOf(s[1..], sep);
    match b
    case None =>
      if a.Some? {
        assert a.value > 0;
        MatchShift(s, sep, a.value - 1);
        assert false;
      }
    case Some(j) =>
      MatchShift(s, sep, j);
      if a.None? {
        assert false;
      } else if a.value < j + 1 {
        MatchShift(s, sep, a.value - 1);
        assert false;
      } else if a.value > j + 1 {
        assert false;
      }
  }

  /** `split` in terms of `indexOf`: without an occurrence the result is `[s]`; otherwise the
      first piece is everything before the leftmost occurrence and the rest is the split of
      everything after it. */
  lemma {:induction false} SplitUnfold(s: String, sep: String)
    requires |sep| > 0
    ensures IndexOf(s, sep).None? ==> Split(s, sep) == [s]
    ensures IndexOf(s, sep).Some? ==>
      var i := IndexOf(s, sep).value;
      Split(s, sep) == [s[..i]] + Split(s[i + |sep|..], sep)
    decreases |s|
  {
    if |s| < |sep| {
    } else if s[..|sep|] == sep {
      assert MatchAt(s, sep, 0);
    } else {
      assert !MatchAt(s, sep, 0);
      IndexOfTail(s, sep);
      SplitUnfold(s[1..], sep);
      var rest := Split(s[1..], sep);
      match IndexOf(s[1..], sep)
      case None =>
        assert [s[0]] + s[1..] == s;
      case Some(j) =>
        assert [s[0]] + s[1..][..j] == s[..j + 1];
        assert s[1..][j + |sep|..] == s[j + 1 + |sep|..];
    }
  }

  /** Joining the pieces of a split with the same separator gives back the original string. */
  lemma {:induction false} SplitJoin(s: String, sep: String)
    requires |sep| > 0
    ensures Join(Split(s, sep), sep) == s
    decreases |s|
  {
    SplitUnfold(s, sep);
    match IndexOf(s, sep)
    case None =>
    case Some(i) =>
      var after := s[i + |sep|..];
      var tail := Split(after, sep);
      SplitJoin(after, sep);
      var pieces := [s[..i]] + tail;
      assert pieces[1..] == tail;
      assert Join(pieces, sep) == s[..i] + sep + after;
      assert s[i..i + |sep|] == sep;
      assert s == s[..i] + s[i..i + |sep|] + after;
  }

  /** A prefix that ends before the leftmost occurrence of `sep` holds no occurrence. */
  lemma PrefixBeforeMatchIsFree(s: String, sep: String, i: nat)
    requires |sep| > 0
    requires IndexOf(s, sep) == Some(i)
    ensures Free(s[..i], sep)
  {
    var p := s[..i];
    if IndexOf(p, sep).Some? {
      var j := IndexOf(p, sep).value;
      assert p[j..j + |sep|] == s[j..j + |sep|];
      assert MatchAt(s, sep, j);
    }
  }

  /** No piece of a split contains the separator. */
  lemma {:induction false} SplitPiecesFree(s: String, sep: String)
    requires |sep| > 0
    ensures forall k :: 0 <= k < |Split(s, sep)| ==> Free(Split(s, sep)[k], sep)
    decreases |s|
  {
    SplitUnfold(s, sep);
    match IndexOf(s, sep)
    case None =>
    case Some(i) =>
      PrefixBeforeMatchIsFree(s, sep, i);
      SplitPiecesFree(s[i + |sep|..], sep);
  }

  /** A split gives back the string alone exactly when the separator does not occur in it. */
  lemma SplitFreeIsSingleton(s: String, sep: String)
    requires |sep| > 0
    ensures Free(s, sep) <==> Split(s, sep) == [s]
  {
    SplitUnfold(s, sep);
    if !Free(s, sep) {
      var i := IndexOf(s, sep).value;
      var tail := Split(s[i + |sep|..], sep);
      assert Split(s, sep) == [s[..i]] + tail;
      assert |Split(s, sep)| >= 2;
    }
  }

  /** The character `c` does not occur in `s`. */
  predicate Lacks(s: String, c: char) {
    forall i :: 0 <= i < |s| ==> s[i] != c
  }

  /** A string lacking some character of `sep` is a single piece. */
  lemma SplitLacking(a: String, sep: String, m: nat)
    requires m < |sep| && Lacks(a, sep[m])
    ensures Split(a, sep) == [a]
  {
    SplitUnfold(a, sep);
  }

  /** If `a` lacks the `m`-th character of `sep`, and that character does not occur earlier in
      `sep` either, then the leftmost occurrence of `sep` in `a + sep + b` is the one after `a`. */
  lemma SplitAt(a: String, sep: String, b: String, m: nat)
    requires m < |sep| && Lacks(a, sep[m])
    requires forall t :: 0 <= t < m ==> sep[t] != sep[m]
    ensures Split(a + sep + b, sep) == [a] + Split(b, sep)
  {
    var s := a + sep + b;
    assert s[|a|..|a| + |sep|] == sep;
    assert MatchAt(s, sep, |a|);
    forall j | 0 <= j < |a|
      ensures !MatchAt(s, sep, j)
    {
    }
    var i := IndexOf(s, sep);
    assert i == Some(|a|) by {
      if i.None? {
        assert false;
      } else if i.value > |a| {
        assert false;
      }
    }
    SplitUnfold(s, sep);
    assert s[..|a|] == a;
    assert s[|a| + |sep|..] == b;
  }
}
