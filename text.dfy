/**
 * The two string primitives the bookmark form relies on: JavaScript's
 * `String.prototype.trim` and `String.prototype.startsWith`.
 */
module Text {

  /** The code points `trim` removes: ECMAScript WhiteSpace and LineTerminator,
      with the space separators of Unicode category Zs written out. */
  const Whitespace: set<char> := {
    '\t', '\n', '\U{B}', '\U{C}', '\r', ' ', '\U{A0}', '\U{1680}',
    '\U{2000}', '\U{2001}', '\U{2002}', '\U{2003}', '\U{2004}', '\U{2005}',
    '\U{2006}', '\U{2007}', '\U{2008}', '\U{2009}', '\U{200A}',
    '\U{2028}', '\U{2029}', '\U{202F}', '\U{205F}', '\U{3000}', '\U{FEFF}'
  }

  predicate IsSpace(c: char) {
    c in Whitespace
  }

  /** Every character of `s` is whitespace (vacuously so for the empty string). */
  predicate AllSpace(s: string) {
    forall i :: 0 <= i < |s| ==> IsSpace(s[i])
  }

  /** `s` neither starts nor ends with whitespace. */
  predicate Stripped(s: string) {
    s == [] || (!IsSpace(s[0]) && !IsSpace(s[|s| - 1]))
  }

  /** `String.prototype.trim`: whitespace is dropped from the front, then from
      the back, until neither end is whitespace. The result is empty exactly
      when `s` is all whitespace, and otherwise neither starts nor ends with
      whitespace. */
  function Trim(s: string): (r: string)
    ensures |r| <= |s|
    ensures r == [] <==> AllSpace(s)
    ensures Stripped(r)
  {
    if s == [] then s
    else if IsSpace(s[0]) then Trim(s[1..])
    else if IsSpace(s[|s| - 1]) then Trim(s[..|s| - 1])
    else s
  }

  /** `String.prototype.startsWith`, compared character by character. */
  function StartsWith(s: string, prefix: string): (r: bool)
    ensures r <==> prefix <= s
  {
    prefix == [] || (s != [] && s[0] == prefix[0] && StartsWith(s[1..], prefix[1..]))
  }

  /** Trailing whitespace can be dropped before trimming, even when the
      string also starts with whitespace. */
  lemma {:induction false} TrimDropsLast(s: string)
    requires s != [] && IsSpace(s[|s| - 1])
    ensures Trim(s) == Trim(s[..|s| - 1])
    decreases |s|
  {
    if IsSpace(s[0]) {
      if |s| == 1 {
        assert s[1..] == [] && s[..|s| - 1] == [];
      } else {
        var p := s[..|s| - 1];
        assert s[1..][|s[1..]| - 1] == s[|s| - 1];
        TrimDropsLast(s[1..]);
        assert s[1..][..|s[1..]| - 1] == p[1..];
        assert p[0] == s[0];
      }
    }
  }

  /** `s[i..j]` is surrounded in `s` by whitespace only. */
  predicate Padded(s: string, i: int, j: int) {
    0 <= i <= j <= |s| && AllSpace(s[..i]) && AllSpace(s[j..])
  }

  /** `Trim(s)` is a contiguous middle part of `s` between a whitespace-only
      prefix and a whitespace-only suffix. */
  lemma {:induction false} TrimDecomposes(s: string)
    ensures exists i, j :: Padded(s, i, j) && Trim(s) == s[i..j]
    decreases |s|
  {
    if s == [] {
      assert Padded(s, 0, 0) && Trim(s) == s[0..0];
    } else if IsSpace(s[0]) {
      var t := s[1..];
      TrimDecomposes(t);
      var i, j :| Padded(t, i, j) && Trim(t) == t[i..j];
      assert s == [s[0]] + t;
      SpaceInFront(s[0], t, i, j);
      assert Padded(s, i + 1, j + 1) && Trim(s) == s[i + 1..j + 1];
    } else if IsSpace(s[|s| - 1]) {
      var p := s[..|s| - 1];
      TrimDecomposes(p);
      var i, j :| Padded(p, i, j) && Trim(p) == p[i..j];
      assert s == p + [s[|s| - 1]];
      SpaceBehind(p, s[|s| - 1], i, j);
      assert Padded(s, i, j) && Trim(s) == s[i..j];
    } else {
      assert Padded(s, 0, |s|) && Trim(s) == s[0..|s|];
    }
  }

  /** A whitespace character put in front of `t` joins its whitespace prefix. */
  lemma SpaceInFront(c: char, t: string, i: int, j: int)
    requires IsSpace(c) && Padded(t, i, j)
    ensures Padded([c] + t, i + 1, j + 1) && ([c] + t)[i + 1..j + 1] == t[i..j]
  {
    var s := [c] + t;
    assert s[..i + 1] == [c] + t[..i];
    assert s[j + 1..] == t[j..];
  }

  /** A whitespace character put behind `p` joins its whitespace suffix. */
  lemma SpaceBehind(p: string, c: char, i: int, j: int)
    requires IsSpace(c) && Padded(p, i, j)
    ensures Padded(p + [c], i, j) && (p + [c])[i..j] == p[i..j]
  {
    var s := p + [c];
    assert s[..i] == p[..i];
    assert s[j..] == p[j..] + [c];
  }

  /** Extra whitespace around a string does not change what `Trim` returns. */
  lemma {:induction false} TrimIgnoresPadding(pre: string, s: string, post: string)
    requires AllSpace(pre) && AllSpace(post)
    ensures Trim(pre + s + post) == Trim(s)
    decreases |pre| + |post|
  {
    var w := pre + s + post;
    if pre != [] {
      assert w[0] == pre[0];
      assert w[1..] == pre[1..] + s + post;
      TrimIgnoresPadding(pre[1..], s, post);
    } else if post != [] {
      var shorter := post[..|post| - 1];
      assert w[|w| - 1] == post[|post| - 1];
      TrimDropsLast(w);
      assert w[..|w| - 1] == pre + s + shorter;
      TrimIgnoresPadding(pre, s, shorter);
    } else {
      assert w == s;
    }
  }

  /** Characterisation of `Trim`: padding a stripped string with whitespace
      on either side and trimming gives the string back. */
  lemma TrimPadded(pre: string, core: string, post: string)
    requires AllSpace(pre) && AllSpace(post) && Stripped(core)
    ensures Trim(pre + core + post) == core
  {
    TrimIgnoresPadding(pre, core, post);
  }

  /** Trimming twice is trimming once. */
  lemma TrimIdempotent(s: string)
    ensures Trim(Trim(s)) == Trim(s)
  {
    assert [] + Trim(s) + [] == Trim(s);
    TrimPadded([], Trim(s), []);
  }
}
