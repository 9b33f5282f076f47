/**
 * The JavaScript string built-ins the page relies on: `indexOf` with a
 * one-character needle, `substring` with one argument, and `trim`.
 * A JavaScript string is modelled as `seq<char>`.
 */
module JsText {

  /** `s.indexOf(c)`: the first index holding `c`, or -1 when there is none. */
  function IndexOf(s: string, c: char): (r: int)
    ensures -1 <= r < |s|
    ensures r == -1 <==> c !in s
    ensures 0 <= r ==> s[r] == c && c !in s[..r]
  {
    if s == [] then -1
    else if s[0] == c then 0
    else
      var k := IndexOf(s[1..], c);
      if k == -1 then -1
      else
        assert s[..k + 1] == [s[0]] + s[1..][..k];
        k + 1
  }

  /** `s.substring(start)`: the start index is clamped into `[0, |s|]`. */
  function Substring(s: string, start: int): (r: string)
    ensures start <= 0 ==> r == s
    ensures 0 <= start <= |s| ==> r == s[start..]
    ensures |s| <= start ==> r == ""
  {
    var from := if start < 0 then 0 else if start > |s| then |s| else start;
    s[from..]
  }

  /**
   * The characters `trim` removes: ECMAScript WhiteSpace (tab, vertical tab,
   * form feed, space, no-break space, byte order mark and the other
   * space separators) and LineTerminator (LF, CR, LS, PS).
   */
  predicate IsWhiteSpace(c: char) {
    var n := c as int;
    n == 0x09 || n == 0x0A || n == 0x0B || n == 0x0C || n == 0x0D || n == 0x20 ||
    n == 0xA0 || n == 0x1680 || (0x2000 <= n <= 0x200A) || n == 0x2028 || n == 0x2029 ||
    n == 0x202F || n == 0x205F || n == 0x3000 || n == 0xFEFF
  }

  predicate AllWhiteSpace(s: string) {
    forall k :: 0 <= k < |s| ==> IsWhiteSpace(s[k])
  }

  /** Neither starts nor ends with white space. */
  predicate IsTrimmed(s: string) {
    s == "" || (!IsWhiteSpace(s[0]) && !IsWhiteSpace(s[|s| - 1]))
  }

  /** Drops the leading white space: the longest white-space prefix goes. */
  function TrimStart(s: string): (r: string)
    ensures |r| <= |s| && r == s[|s| - |r|..]
    ensures AllWhiteSpace(s[..|s| - |r|])
    ensures r != "" ==> !IsWhiteSpace(r[0])
    decreases |s|
  {
    if s != "" && IsWhiteSpace(s[0]) then TrimStart(s[1..]) else s
  }

  /** Drops the trailing white space: the longest white-space suffix goes. */
  function TrimEnd(s: string): (r: string)
    ensures |r| <= |s| && r == s[..|r|]
    ensures AllWhiteSpace(s[|r|..])
    ensures r != "" ==> !IsWhiteSpace(r[|r| - 1])
    decreases |s|
  {
    if s != "" && IsWhiteSpace(s[|s| - 1]) then TrimEnd(s[..|s| - 1]) else s
  }

  /**
   * `s.trim()`: the window of `s` left once the white space at both ends is
   * removed; it neither starts nor ends with white space.
   */
  function Trim(s: string): (r: string)
    ensures IsTrimmed(r)
  {
    TrimEnd(TrimStart(s))
  }

  /** `r` stands in `s` at index `i`, with only white space before and after it. */
  predicate IsWindowAt(s: string, r: string, i: int) {
    0 <= i <= |s| - |r| && r == s[i..i + |r|] &&
    AllWhiteSpace(s[..i]) && AllWhiteSpace(s[i + |r|..])
  }

  /** The trim is a window of `s` with only white space on either side of it. */
  lemma TrimIsWindow(s: string)
    ensures exists i :: IsWindowAt(s, Trim(s), i)
  {
    var t := TrimStart(s);
    var r := TrimEnd(t);
    assert r == Trim(s);
    WindowOfWindow(s, t, r);
    assert IsWindowAt(s, r, |s| - |t|);
  }

  /** A prefix `r` of a suffix `t` of `s` is a window of `s`; what follows `r` in `t` follows it in `s`. */
  lemma WindowOfWindow(s: string, t: string, r: string)
    requires |t| <= |s| && t == s[|s| - |t|..]
    requires |r| <= |t| && r == t[..|r|]
    requires AllWhiteSpace(t[|r|..])
    ensures r == s[|s| - |t|..|s| - |t| + |r|]
    ensures AllWhiteSpace(s[|s| - |t| + |r|..])
  {
    assert s[|s| - |t| + |r|..] == t[|r|..];
  }

  /** White space in front of a string not starting with white space is what `TrimStart` drops. */
  lemma {:induction false} TrimStartDropsExactly(a: string, u: string)
    requires AllWhiteSpace(a)
    requires u == "" || !IsWhiteSpace(u[0])
    ensures TrimStart(a + u) == u
    decreases |a|
  {
    if a != "" {
      assert (a + u)[1..] == a[1..] + u;
      TrimStartDropsExactly(a[1..], u);
    }
  }

  /** White space after a string not ending with white space is what `TrimEnd` drops. */
  lemma {:induction false} TrimEndDropsExactly(u: string, b: string)
    requires AllWhiteSpace(b)
    requires u == "" || !IsWhiteSpace(u[|u| - 1])
    ensures TrimEnd(u + b) == u
    decreases |b|
  {
    if b != "" {
      assert (u + b)[..|u + b| - 1] == u + b[..|b| - 1];
      TrimEndDropsExactly(u, b[..|b| - 1]);
    } else {
      assert u + b == u;
    }
  }

  /**
   * The trim is the only window with white space around it and none at its
   * own ends: whatever white space surrounds `r`, trimming gives back `r`.
   */
  lemma {:induction false} TrimUnique(a: string, r: string, b: string)
    requires AllWhiteSpace(a) && AllWhiteSpace(b)
    requires IsTrimmed(r)
    ensures Trim(a + r + b) == r
  {
    if r == "" {
      assert a + r + b == (a + b) + "";
      TrimStartDropsExactly(a + b, "");
    } else {
      assert a + r + b == a + (r + b);
      TrimStartDropsExactly(a, r + b);
      TrimEndDropsExactly(r, b);
    }
  }
}
