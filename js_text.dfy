/** The two string operations the schemas apply to stored text:
    `String.prototype.trim` (the `trim` option) and `toLowerCase` (the
    `lowercase` option), after sections 22.1.3.32 and 22.1.3.28 of
    ECMA-262. */
module JsText {

  /** The code points `trim` removes: the WhiteSpace and LineTerminator
      productions of ECMA-262, with every space separator of Unicode. */
  predicate IsWhite(c: char) {
    var n := c as int;
    || (0x09 <= n <= 0x0D) || n == 0x20 || n == 0xA0 || n == 0x1680
    || (0x2000 <= n <= 0x200A) || n == 0x2028 || n == 0x2029
    || n == 0x202F || n == 0x205F || n == 0x3000 || n == 0xFEFF
  }

  predicate AllWhite(s: string) {
    forall i :: 0 <= i < |s| ==> IsWhite(s[i])
  }

  /** Empty, or beginning and ending with something other than white space. */
  predicate NoWhiteEnds(s: string) {
    |s| > 0 ==> !IsWhite(s[0]) && !IsWhite(s[|s| - 1])
  }

  /** The white space at the start removed: a suffix of `s`. */
  function TrimStart(s: string): (r: string)
    ensures |r| <= |s| && r == s[|s| - |r|..]
    ensures AllWhite(s[..|s| - |r|])
    ensures |r| > 0 ==> !IsWhite(r[0])
  {
    if |s| > 0 && IsWhite(s[0]) then
      var r := TrimStart(s[1..]);
      assert s[1..][|s| - 1 - |r|..] == s[|s| - |r|..];
      assert forall i :: 1 <= i < |s| - |r| ==> s[i] == s[1..][..|s| - 1 - |r|][i - 1];
      r
    else s
  }

  /** The white space at the end removed: a prefix of `s`. */
  function TrimEnd(s: string): (r: string)
    ensures |r| <= |s| && r == s[..|r|]
    ensures AllWhite(s[|r|..])
    ensures |r| > 0 ==> !IsWhite(r[|r| - 1])
  {
    if |s| > 0 && IsWhite(s[|s| - 1]) then
      var r := TrimEnd(s[..|s| - 1]);
      assert s[|r|..] == s[..|s| - 1][|r|..] + [s[|s| - 1]];
      r
    else s
  }

  /** `s.trim()`: `s` is the result with white space on either side. */
  function Trim(s: string): (r: string)
    ensures NoWhiteEnds(r)
    ensures |r| <= |s|
  {
    var t := TrimStart(s);
    var r := TrimEnd(t);
    assert |r| > 0 ==> r[0] == t[0];
    r
  }

  /** The text between white space is what `trim` gives back, whatever
      white space surrounds it. */
  lemma TrimCharacterised(p: string, t: string, q: string)
    requires AllWhite(p) && AllWhite(q) && NoWhiteEnds(t)
    ensures Trim(p + t + q) == t
  {
    var u := t + q;
    Associative(p, t, q);
    TrimStartOfWhite(p, u);
    if |t| > 0 {
      TrimEndOfWhite(t, q);
    } else {
      assert u == q + [];
      TrimStartOfWhite(q, []);
    }
  }

  lemma Associative(p: string, t: string, q: string)
    ensures p + t + q == p + (t + q)
  {
  }

  /** White space in front of text that does not start with white space
      is exactly what `TrimStart` removes. */
  lemma {:induction false} TrimStartOfWhite(p: string, u: string)
    requires AllWhite(p)
    ensures |u| > 0 && !IsWhite(u[0]) ==> TrimStart(p + u) == u
    ensures TrimStart(p + u) == TrimStart(u)
    decreases |p|
  {
    if |p| > 0 {
      assert (p + u)[0] == p[0];
      assert (p + u)[1..] == p[1..] + u;
      TrimStartOfWhite(p[1..], u);
    } else {
      assert p + u == u;
    }
  }

  /** White space after text that does not end with white space is
      exactly what `TrimEnd` removes. */
  lemma {:induction false} TrimEndOfWhite(t: string, q: string)
    requires AllWhite(q) && |t| > 0 && !IsWhite(t[|t| - 1])
    ensures TrimEnd(t + q) == t
    decreases |q|
  {
    if |q| > 0 {
      assert (t + q)[|t + q| - 1] == q[|q| - 1];
      assert (t + q)[..|t + q| - 1] == t + q[..|q| - 1];
      TrimEndOfWhite(t, q[..|q| - 1]);
    } else {
      assert t + q == t;
    }
  }

  /** Trimming twice is trimming once. */
  lemma TrimIdempotent(s: string)
    ensures Trim(Trim(s)) == Trim(s)
  {
    var r := Trim(s);
    assert [] + r + [] == r;
    TrimCharacterised([], r, []);
  }

  /** The strings `trim` leaves alone are those with no white space at
      either end. */
  lemma TrimFixedPoints(s: string)
    ensures Trim(s) == s <==> NoWhiteEnds(s)
  {
    if NoWhiteEnds(s) {
      assert [] + s + [] == s;
      TrimCharacterised([], s, []);
    }
  }

  /** `toLowerCase` on the letters A to Z. */
  function LowerChar(c: char): (r: char)
    ensures 'A' <= c <= 'Z' ==> r as int == c as int + 32
    ensures !('A' <= c <= 'Z') ==> r == c
  {
    if 'A' <= c <= 'Z' then (c as int + 32) as char else c
  }

  /** `s.toLowerCase()` for text whose only capitals are A to Z. */
  function ToLower(s: string): (r: string)
    ensures |r| == |s|
    ensures forall i :: 0 <= i < |s| ==> r[i] == LowerChar(s[i])
    ensures forall i :: 0 <= i < |r| ==> !('A' <= r[i] <= 'Z')
  {
    seq(|s|, i requires 0 <= i < |s| => LowerChar(s[i]))
  }

  lemma LowerIdempotent(s: string)
    ensures ToLower(ToLower(s)) == ToLower(s)
  {
  }

  /** Lowercasing leaves white space alone, so it does not matter in
      which order a path that is both `lowercase` and `trim` applies them. */
  lemma LowerTrimCommute(s: string)
    ensures ToLower(Trim(s)) == Trim(ToLower(s))
  {
    LowerTrimStart(s);
    LowerTrimEnd(TrimStart(s));
  }

  lemma {:induction false} LowerTrimStart(s: string)
    ensures ToLower(TrimStart(s)) == TrimStart(ToLower(s))
    decreases |s|
  {
    if |s| > 0 {
      var ls := ToLower(s);
      LowerWhite(s[0]);
      if IsWhite(s[0]) {
        assert ls[1..] == ToLower(s[1..]);
        LowerTrimStart(s[1..]);
      }
    }
  }

  lemma {:induction false} LowerTrimEnd(s: string)
    ensures ToLower(TrimEnd(s)) == TrimEnd(ToLower(s))
    decreases |s|
  {
    if |s| > 0 {
      var ls := ToLower(s);
      LowerWhite(s[|s| - 1]);
      if IsWhite(s[|s| - 1]) {
        assert ls[..|s| - 1] == ToLower(s[..|s| - 1]);
        LowerTrimEnd(s[..|s| - 1]);
      }
    }
  }

  lemma LowerWhite(c: char)
    ensures IsWhite(LowerChar(c)) <==> IsWhite(c)
  {
  }
}
