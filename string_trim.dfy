/**
 * String.prototype.trim of ECMA-262 (section 22.1.3.32 in the 2023 edition):
 * strips the white-space and line-terminator code points from both ends of a
 * string and keeps everything between them.
 */
module StringTrim {

  /** WhiteSpace (section 12.2) and LineTerminator (section 12.3) code points. */
  predicate IsWhiteSpace(c: char) {
    || c == '\t' || c == '\U{B}' || c == '\U{C}' || c == ' ' || c == '\U{A0}' || c == '\U{FEFF}'
    || c == '\U{1680}' || ('\U{2000}' <= c <= '\U{200A}') || c == '\U{202F}' || c == '\U{205F}'
    || c == '\U{3000}'
    || c == '\n' || c == '\r' || c == '\U{2028}' || c == '\U{2029}'
  }

  predicate AllWhiteSpace(s: string) {
    forall i :: 0 <= i < |s| ==> IsWhiteSpace(s[i])
  }

  /** A string that trimming leaves as it is: empty, or no white space at either end. */
  predicate IsTrimmed(s: string) {
    s == [] || (!IsWhiteSpace(s[0]) && !IsWhiteSpace(s[|s| - 1]))
  }

  /**
   * The trimmed string. Leading white space goes first, then trailing white
   * space; TrimSplits and TrimUnique below say what the result is.
   */
  function Trim(s: string): (r: string)
    ensures |r| <= |s|
    decreases |s|
  {
    if s != [] && IsWhiteSpace(s[0]) then Trim(s[1..])
    else if s != [] && IsWhiteSpace(s[|s| - 1]) then Trim(s[..|s| - 1])
    else s
  }

  /** Neither end of a trimmed string is white space. */
  lemma {:induction false} TrimIsTrimmed(s: string)
    ensures IsTrimmed(Trim(s))
    decreases |s|
  {
    if s != [] && IsWhiteSpace(s[0]) {
      TrimIsTrimmed(s[1..]);
    } else if s != [] && IsWhiteSpace(s[|s| - 1]) {
      TrimIsTrimmed(s[..|s| - 1]);
    }
  }

  /** What Trim removes is white space at the two ends, and only that. */
  lemma {:induction false} TrimSplits(s: string) returns (pre: string, post: string)
    ensures s == pre + Trim(s) + post
    ensures AllWhiteSpace(pre) && AllWhiteSpace(post)
    decreases |s|
  {
    if s != [] && IsWhiteSpace(s[0]) {
      var pre', post' := TrimSplits(s[1..]);
      pre, post := [s[0]] + pre', post';
      calc {
        s;
        [s[0]] + s[1..];
        [s[0]] + (pre' + Trim(s[1..]) + post');
        pre + Trim(s) + post;
      }
    } else if s != [] && IsWhiteSpace(s[|s| - 1]) {
      var pre', post' := TrimSplits(s[..|s| - 1]);
      pre, post := pre', post' + [s[|s| - 1]];
      calc {
        s;
        s[..|s| - 1] + [s[|s| - 1]];
        (pre' + Trim(s[..|s| - 1]) + post') + [s[|s| - 1]];
        pre + Trim(s) + post;
      }
    } else {
      pre, post := [], [];
      assert s == [] + s + [];
    }
  }

  /**
   * Trim is determined by what it promises: whenever s splits into white
   * space, a trimmed middle and white space, Trim(s) is that middle.
   */
  lemma {:induction false} TrimUnique(pre: string, m: string, post: string)
    requires AllWhiteSpace(pre) && AllWhiteSpace(post) && IsTrimmed(m)
    ensures Trim(pre + m + post) == m
    decreases |pre| + |post|
  {
    var s := pre + m + post;
    if pre != [] {
      assert s[1..] == pre[1..] + m + post;
      TrimUnique(pre[1..], m, post);
    } else if m == [] && post != [] {
      assert s == post && s[1..] == [] + m + post[1..];
      TrimUnique([], m, post[1..]);
    } else if post != [] {
      assert s[..|s| - 1] == pre + m + post[..|post| - 1];
      TrimUnique(pre, m, post[..|post| - 1]);
    } else {
      assert s == m;
    }
  }

  /** Trimming a trimmed string changes nothing. */
  lemma TrimIdempotent(s: string)
    ensures Trim(Trim(s)) == Trim(s)
  {
    var m := Trim(s);
    TrimIsTrimmed(s);
    assert m == [] + m + [];
    TrimUnique([], m, []);
  }

  /** Trim keeps exactly the strings that have no white space at their ends. */
  lemma TrimFixesTrimmed(s: string)
    ensures Trim(s) == s <==> IsTrimmed(s)
  {
    if IsTrimmed(s) {
      assert s == [] + s + [];
      TrimUnique([], s, []);
    }
  }
}
