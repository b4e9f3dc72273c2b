/** The few `strings` package operations the core relies on, over byte strings. */
module Text {

  /** Go's unicode.IsSpace: the Latin-1 spaces and the other Unicode White_Space code points. */
  predicate IsSpace(c: char) {
    c == ' ' || c == '\t' || c == '\n' || c == '\U{000B}' || c == '\U{000C}' || c == '\r'
    || c == '\U{0085}' || c == '\U{00A0}' || c == '\U{1680}'
    || ('\U{2000}' <= c <= '\U{200A}')
    || c == '\U{2028}' || c == '\U{2029}' || c == '\U{202F}' || c == '\U{205F}' || c == '\U{3000}'
  }

  predicate AllSpace(s: string) {
    forall k :: 0 <= k < |s| ==> IsSpace(s[k])
  }

  /** Drops the leading white space. */
  function TrimLeft(s: string): (r: string)
    ensures |r| <= |s| && r == s[|s| - |r|..]
    ensures AllSpace(s[..|s| - |r|])
    ensures r != [] ==> !IsSpace(r[0])
  {
    if s != [] && IsSpace(s[0]) then TrimLeft(s[1..]) else s
  }

  /** Drops the trailing white space. */
  function TrimRight(s: string): (r: string)
    ensures |r| <= |s| && r == s[..|r|]
    ensures AllSpace(s[|r|..])
    ensures r != [] ==> !IsSpace(r[|r| - 1])
  {
    if s != [] && IsSpace(s[|s| - 1]) then TrimRight(s[..|s| - 1]) else s
  }

  /** strings.TrimSpace: the text between the leading and the trailing white space. */
  function TrimSpace(s: string): (r: string)
    ensures |r| <= |s|
    ensures r != [] ==> !IsSpace(r[0]) && !IsSpace(r[|r| - 1])
    ensures r == [] <==> AllSpace(s)
    ensures !(s != [] && IsSpace(s[0])) && !(s != [] && IsSpace(s[|s| - 1])) ==> r == s
    ensures exists i :: OuterSpaceCut(s, r, i)
  {
    var left := TrimLeft(s);
    var both := TrimRight(left);
    TrimmedSlice(s, left, both);
    TrimmedFirst(s, left, both);
    TrimmedEmpty(s, left, both);
    TrimmedUnchanged(s, left, both);
    both
  }

  /** r is s[i..i + |r|], and everything of s around it is white space. */
  predicate OuterSpaceCut(s: string, r: string, i: int) {
    0 <= i <= |s| - |r| && r == s[i..i + |r|] && AllSpace(s[..i]) && AllSpace(s[i + |r|..])
  }

  lemma TrimmedSlice(s: string, l: string, r: string)
    requires l == TrimLeft(s) && r == TrimRight(l)
    ensures exists i :: OuterSpaceCut(s, r, i)
  {
    var i := |s| - |l|;
    assert l == s[i..];
    assert r == l[..|r|];
    assert AllSpace(l[|r|..]);
    assert r == s[i..i + |r|];
    assert s[i + |r|..] == l[|r|..];
    assert OuterSpaceCut(s, r, i);
  }

  lemma TrimmedFirst(s: string, l: string, r: string)
    requires l == TrimLeft(s) && r == TrimRight(l)
    ensures r != [] ==> !IsSpace(r[0])
  {
    if r != [] {
      assert r[0] == l[0];
    }
  }

  lemma TrimmedEmpty(s: string, l: string, r: string)
    requires l == TrimLeft(s) && r == TrimRight(l)
    ensures r == [] <==> AllSpace(s)
  {
    var n := |s| - |l|;
    if r == [] {
      assert l[|r|..] == l;
      assert AllSpace(l);
      assert AllSpace(s[..n]);
      forall k | 0 <= k < |s|
        ensures IsSpace(s[k])
      {
        if k < n {
          assert s[k] == s[..n][k];
        } else {
          assert s[k] == l[k - n];
        }
      }
    }
    if l != [] {
      assert !AllSpace(s) by {
        assert s[n] == l[0];
      }
    }
  }

  lemma TrimmedUnchanged(s: string, l: string, r: string)
    requires l == TrimLeft(s) && r == TrimRight(l)
    ensures !(s != [] && IsSpace(s[0])) && !(s != [] && IsSpace(s[|s| - 1])) ==> r == s
  {
    if !(s != [] && IsSpace(s[0])) && !(s != [] && IsSpace(s[|s| - 1])) {
      assert l == s;
    }
  }

  /** strings.HasPrefix. */
  predicate HasPrefix(s: string, prefix: string) {
    prefix <= s
  }

  /** strings.Repeat of a one-character string. */
  function Repeat(c: char, n: nat): (r: string)
    ensures |r| == n
    ensures forall k :: 0 <= k < n ==> r[k] == c
  {
    seq(n, _ => c)
  }
}
