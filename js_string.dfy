/**
 * `String.prototype.trim` as ECMAScript defines it: remove every leading and
 * trailing code point that is WhiteSpace or a LineTerminator.
 */
module JsString {

  /**
   * WhiteSpace (TAB, VT, FF, ZWNBSP and the Unicode category Zs) or
   * LineTerminator (LF, CR, LS, PS); TAB, LF, VT, FF and CR are U+0009 to U+000D.
   */
  predicate IsWhitespace(c: char)
    ensures IsWhitespace(c) <==>
      || '\t' <= c <= '\r' || c == ' ' || c == '\U{00A0}' || c == '\U{1680}'
      || '\U{2000}' <= c <= '\U{200A}' || c == '\U{2028}' || c == '\U{2029}'
      || c == '\U{202F}' || c == '\U{205F}' || c == '\U{3000}' || c == '\U{FEFF}'
  {
    if c <= ' ' then c == ' ' || '\t' <= c <= '\r'
    else if c < '\U{00A0}' then false
    else IsWideWhitespace(c)
  }

  /** The whitespace code points above U+009F. */
  predicate IsWideWhitespace(c: char)
    ensures IsWideWhitespace(c) ==> '\U{00A0}' <= c <= '\U{FEFF}'
  {
    || c == '\U{00A0}' || c == '\U{1680}' || '\U{2000}' <= c <= '\U{200A}'
    || c == '\U{2028}' || c == '\U{2029}' || c == '\U{202F}' || c == '\U{205F}'
    || c == '\U{3000}' || c == '\U{FEFF}'
  }

  /** The space character is whitespace; no other printable ASCII character is. */
  lemma AsciiWhitespace(c: char)
    requires ' ' <= c <= '~'
    ensures IsWhitespace(c) <==> c == ' '
  {
  }

  predicate AllWhitespace(s: string)
  {
    forall i :: 0 <= i < |s| ==> IsWhitespace(s[i])
  }

  lemma AllWhitespaceConcat(a: string, b: string)
    requires AllWhitespace(a) && AllWhitespace(b)
    ensures AllWhitespace(a + b)
  {
  }

  /** Neither end of `s` is whitespace: `s` is its own trim. */
  predicate IsTrimmed(s: string)
  {
    s == [] || (!IsWhitespace(s[0]) && !IsWhitespace(s[|s| - 1]))
  }

  /** Drops the leading whitespace: the result is a suffix of `s`, and what it dropped is all whitespace. */
  function TrimStart(s: string): (r: string)
    ensures |r| <= |s| && r == s[|s| - |r|..]
    ensures AllWhitespace(s[..|s| - |r|])
    ensures r == [] || !IsWhitespace(r[0])
  {
    if s != [] && IsWhitespace(s[0]) then TrimStart(s[1..]) else s
  }

  /** Drops the trailing whitespace: the result is a prefix of `s`, and what it dropped is all whitespace. */
  function TrimEnd(s: string): (r: string)
    ensures |r| <= |s| && r == s[..|r|]
    ensures AllWhitespace(s[|r|..])
    ensures r == [] || !IsWhitespace(r[|r| - 1])
  {
    if s != [] && IsWhitespace(s[|s| - 1]) then
      var r := TrimEnd(s[..|s| - 1]);
      assert s[|r|..] == s[..|s| - 1][|r|..] + [s[|s| - 1]];
      r
    else
      s
  }

  /** `s.trim()`: neither end of the result is whitespace. */
  function Trim(s: string): (r: string)
    ensures IsTrimmed(r) && |r| <= |s|
  {
    var t := TrimStart(s);
    var r := TrimEnd(t);
    assert r == [] || !IsWhitespace(r[0]) by {
      if r != [] { assert r[0] == t[0]; }
    }
    r
  }

  lemma {:induction false} TrimStartSplits(s: string) returns (head: string)
    ensures s == head + TrimStart(s) && AllWhitespace(head)
  {
    head := s[..|s| - |TrimStart(s)|];
  }

  lemma {:induction false} TrimEndSplits(s: string) returns (tail: string)
    ensures s == TrimEnd(s) + tail && AllWhitespace(tail)
  {
    tail := s[|TrimEnd(s)|..];
  }

  /** Every string is its trim padded by a whitespace-only head and tail. */
  lemma {:induction false} TrimSplits(s: string) returns (head: string, tail: string)
    ensures s == head + Trim(s) + tail
    ensures AllWhitespace(head) && AllWhitespace(tail)
  {
    head := TrimStartSplits(s);
    tail := TrimEndSplits(TrimStart(s));
  }

  lemma {:induction false} TrimStartOfWhitespace(pre: string, t: string)
    requires AllWhitespace(pre)
    requires t == [] || !IsWhitespace(t[0])
    ensures TrimStart(pre + t) == t
  {
    if pre != [] {
      assert (pre + t)[1..] == pre[1..] + t;
      TrimStartOfWhitespace(pre[1..], t);
    } else {
      assert pre + t == t;
    }
  }

  lemma {:induction false} TrimEndOfWhitespace(t: string, post: string)
    requires AllWhitespace(post)
    requires t == [] || !IsWhitespace(t[|t| - 1])
    ensures TrimEnd(t + post) == t
  {
    if post != [] {
      assert (t + post)[..|t + post| - 1] == t + post[..|post| - 1];
      TrimEndOfWhitespace(t, post[..|post| - 1]);
    } else {
      assert t + post == t;
    }
  }

  /** Trimming finds exactly the core of a string padded with whitespace on both sides. */
  lemma {:induction false} TrimPadded(pre: string, x: string, post: string)
    requires AllWhitespace(pre) && AllWhitespace(post) && IsTrimmed(x)
    ensures Trim(pre + x + post) == x
  {
    if x == [] {
      assert pre + x + post == (pre + post) + [];
      TrimStartOfWhitespace(pre + post, []);
    } else {
      assert pre + x + post == pre + (x + post);
      TrimStartOfWhitespace(pre, x + post);
      TrimEndOfWhitespace(x, post);
    }
  }

  lemma Regroup(a: string, b: string, c: string, d: string, e: string)
    ensures a + (b + c + d) + e == (a + b) + c + (d + e)
  {
  }

  /** Extra whitespace around a string does not change its trim. */
  lemma {:induction false} TrimIgnoresPadding(pre: string, s: string, post: string)
    requires AllWhitespace(pre) && AllWhitespace(post)
    ensures Trim(pre + s + post) == Trim(s)
  {
    var head, tail := TrimSplits(s);
    AllWhitespaceConcat(pre, head);
    AllWhitespaceConcat(tail, post);
    Regroup(pre, head, Trim(s), tail, post);
    TrimPadded(pre + head, Trim(s), tail + post);
  }

  /** The strings that `trim` leaves alone are exactly those with no whitespace at either end. */
  lemma {:induction false} TrimFixedPoints(s: string)
    ensures Trim(s) == s <==> IsTrimmed(s)
  {
  }

  /** `trim` is idempotent. */
  lemma {:induction false} TrimIdempotent(s: string)
    ensures Trim(Trim(s)) == Trim(s)
  {
  }

  /** A string trims to the empty string exactly when it is all whitespace. */
  lemma {:induction false} TrimEmptyIff(s: string)
    ensures Trim(s) == [] <==> AllWhitespace(s)
  {
  }
}
