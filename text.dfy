/**
  Text operations the bootstrap relies on: substring occurrence, the
  left-to-right literal replacement of Rust's `str::replace`, and the
  whitespace trimming of `str::trim`.
 */
module Text {

  /** True when `p` occurs in `t` as a contiguous run of characters. */
  predicate Occurs(t: string, p: string)
    decreases |t|
  {
    |p| <= |t| && (t[..|p|] == p || (|t| > 0 && Occurs(t[1..], p)))
  }

  /** No non-empty proper prefix of `p` is a suffix of `a`: an occurrence of `p`
      can never straddle the end of `a`. */
  predicate NoBorder(a: string, p: string)
  {
    forall k :: 0 < k < |p| && k <= |a| ==> a[|a| - k..] != p[..k]
  }

  /** Rust's `str::replace` for a non-empty pattern: scan from the left and
      rewrite every non-overlapping occurrence of `pat` by `rep`. */
  function Replace(s: string, pat: string, rep: string): (r: string)
    requires |pat| > 0
    ensures !Occurs(s, pat) ==> r == s
    decreases |s|
  {
    if |s| < |pat| then s
    else if s[..|pat|] == pat then rep + Replace(s[|pat|..], pat, rep)
    else [s[0]] + Replace(s[1..], pat, rep)
  }

  /** The first occurrence is rewritten in place: text before it is kept,
      `rep` takes the occurrence's place, and the scan resumes right after it. */
  lemma {:induction false} ReplaceAtFirstOccurrence(a: string, b: string, pat: string, rep: string)
    requires |pat| > 0 && !Occurs(a + pat[..|pat| - 1], pat)
    ensures Replace(a + pat + b, pat, rep) == a + rep + Replace(b, pat, rep)
    decreases |a|
  {
    if |a| == 0 {
      assert a + pat + b == pat + b;
      ReplaceAtStart(pat, b, rep);
    } else {
      var x := a[1..] + pat + b;
      SplitBeforeOccurrence(a, b, pat);
      ReplaceAtFirstOccurrence(a[1..], b, pat, rep);
      ReplaceSkipsHead(a[0], x, pat, rep);
      ConsAppend2(a, rep, Replace(b, pat, rep));
    }
  }

  /** Splitting off the first character of text that holds its first
      occurrence after that character. */
  lemma SplitBeforeOccurrence(a: string, b: string, pat: string)
    requires |a| > 0 && |pat| > 0 && !Occurs(a + pat[..|pat| - 1], pat)
    ensures a + pat + b == [a[0]] + (a[1..] + pat + b)
    ensures ([a[0]] + (a[1..] + pat + b))[..|pat|] != pat
    ensures !Occurs(a[1..] + pat[..|pat| - 1], pat)
  {
    SplitShapes(a, b, pat);
    NoOccurrenceAtHead(a + pat[..|pat| - 1], pat);
  }

  /** How `a + pat + b` and `a + pat[..|pat|-1]` look once their first
      character is split off. */
  lemma SplitShapes(a: string, b: string, pat: string)
    requires |a| > 0 && |pat| > 0
    ensures a + pat + b == [a[0]] + (a[1..] + pat + b)
    ensures ([a[0]] + (a[1..] + pat + b))[..|pat|] == (a + pat[..|pat| - 1])[..|pat|]
    ensures (a + pat[..|pat| - 1])[1..] == a[1..] + pat[..|pat| - 1]
  {
    ConsAppend(a, pat + b);
    assert a[1..] + pat + b == a[1..] + (pat + b);
  }

  /** A non-empty text is its first character followed by the rest. */
  lemma ConsAppend(a: string, y: string)
    requires |a| > 0
    ensures [a[0]] + (a[1..] + y) == a + y
  {
    assert [a[0]] + a[1..] == a;
  }

  /** `ConsAppend` for two appended texts. */
  lemma ConsAppend2(a: string, y: string, z: string)
    requires |a| > 0
    ensures [a[0]] + (a[1..] + y + z) == a + y + z
  {
    ConsAppend(a, y + z);
    assert a[1..] + y + z == a[1..] + (y + z);
    assert a + y + z == a + (y + z);
  }

  /** A text that does not begin with the pattern keeps its first character. */
  lemma ReplaceSkipsHead(c: char, x: string, pat: string, rep: string)
    requires 0 < |pat| <= 1 + |x| && ([c] + x)[..|pat|] != pat
    ensures Replace([c] + x, pat, rep) == [c] + Replace(x, pat, rep)
  {
    assert ([c] + x)[1..] == x;
  }

  /** A text that begins with the pattern starts its output with `rep`. */
  lemma ReplaceAtStart(pat: string, b: string, rep: string)
    requires |pat| > 0
    ensures Replace(pat + b, pat, rep) == rep + Replace(b, pat, rep)
  {
    assert (pat + b)[..|pat|] == pat && (pat + b)[|pat|..] == b;
  }

  /** A text without an occurrence neither starts with the pattern nor holds
      one further on. */
  lemma NoOccurrenceAtHead(t: string, p: string)
    requires |p| <= |t| && !Occurs(t, p)
    ensures t[..|p|] != p && !Occurs(t[1..], p)
  {
  }

  /** Replacing a pattern by itself changes nothing. */
  lemma {:induction false} ReplaceWithItself(s: string, pat: string)
    requires |pat| > 0
    ensures Replace(s, pat, pat) == s
    decreases |s|
  {
    if |s| < |pat| {
    } else if s[..|pat|] == pat {
      ReplaceWithItself(s[|pat|..], pat);
      assert s == s[..|pat|] + s[|pat|..];
    } else {
      ReplaceWithItself(s[1..], pat);
      assert s == [s[0]] + s[1..];
    }
  }

  /** Two texts without an occurrence glue into one without an occurrence,
      provided none can straddle the seam. */
  lemma {:induction false} NoOccurrenceInConcat(a: string, b: string, p: string)
    requires !Occurs(a, p) && !Occurs(b, p) && NoBorder(a, p)
    ensures !Occurs(a + b, p)
    decreases |a|
  {
    if |a| == 0 {
      assert a + b == b;
    } else {
      if |p| <= |a| {
        assert (a + b)[..|p|] == a[..|p|];
      } else {
        assert a[|a| - |a|..] == a;
        assert p[..|a|] != a;
        assert |p| <= |a + b| ==> (a + b)[..|p|][..|a|] == a;
      }
      assert (a + b)[1..] == a[1..] + b;
      forall k | 0 < k < |p| && k <= |a[1..]|
        ensures a[1..][|a[1..]| - k..] != p[..k]
      {
        assert a[1..][|a[1..]| - k..] == a[|a| - k..];
      }
      NoOccurrenceInConcat(a[1..], b, p);
    }
  }

  /** When a replacement starts with the pattern's first character, the output
      agrees with the input up to the first place that character appears. */
  lemma {:induction false} ReplaceKeepsPrefix(t: string, pat: string, rep: string, j: nat)
    requires |pat| > 0 && |rep| > 0 && rep[0] == pat[0]
    requires j <= |Replace(t, pat, rep)|
    requires forall i :: 0 <= i < j ==> Replace(t, pat, rep)[i] != pat[0]
    ensures j <= |t| && Replace(t, pat, rep)[..j] == t[..j]
    decreases j
  {
    var r := Replace(t, pat, rep);
    assert j > 0 ==> r[0] != pat[0];
    if j == 0 {
    } else if |t| < |pat| {
    } else if t[..|pat|] != pat {
      var u := Replace(t[1..], pat, rep);
      assert r == [t[0]] + u;
      forall i | 0 <= i < j - 1 ensures u[i] != pat[0] {
        assert u[i] == r[i + 1];
      }
      ReplaceKeepsPrefix(t[1..], pat, rep, j - 1);
      assert r[..j] == [t[0]] + u[..j - 1];
      assert t[..j] == [t[0]] + t[1..][..j - 1];
    }
  }

  /** After replacement no occurrence of the pattern is left, for a
      replacement that neither contains the pattern nor can combine with
      neighbouring text into one. */
  lemma {:induction false} ReplaceRemovesAll(s: string, pat: string, rep: string)
    requires |pat| > 0 && |rep| > 0 && rep[0] == pat[0]
    requires pat[0] !in pat[1..]
    requires !Occurs(rep, pat) && NoBorder(rep, pat)
    ensures !Occurs(Replace(s, pat, rep), pat)
    decreases |s|
  {
    if |s| < |pat| {
    } else if s[..|pat|] == pat {
      ReplaceRemovesAll(s[|pat|..], pat, rep);
      NoOccurrenceInConcat(rep, Replace(s[|pat|..], pat, rep), pat);
    } else {
      var u := Replace(s[1..], pat, rep);
      ReplaceRemovesAll(s[1..], pat, rep);
      var r := [s[0]] + u;
      if |pat| <= |r| && r[..|pat|] == pat {
        forall i | 0 <= i < |pat| - 1 ensures u[i] != pat[0] {
          assert u[i] == r[i + 1] == pat[1..][i];
        }
        ReplaceKeepsPrefix(s[1..], pat, rep, |pat| - 1);
        assert false;
      }
      assert r[1..] == u;
    }
  }

  /** A text in which a character of the pattern only appears before that
      character's own position in the pattern holds no occurrence. */
  lemma {:induction false} NoOccurrenceByMissingChar(t: string, p: string, i: nat)
    requires i < |p|
    requires forall k :: 0 <= k < |t| && t[k] == p[i] ==> k < i
    ensures !Occurs(t, p)
    decreases |t|
  {
    if |p| <= |t| {
      assert t[..|p|][i] == t[i];
      if |t| > 0 {
        forall k | 0 <= k < |t[1..]| && t[1..][k] == p[i] ensures k < i {
          assert t[k + 1] == t[1..][k];
        }
        NoOccurrenceByMissingChar(t[1..], p, i);
      }
    }
  }

  /** A text whose last character is not among the pattern's first |p|-1
      characters cannot end in a proper prefix of the pattern. */
  lemma NoBorderByLastChar(a: string, p: string)
    requires |a| > 0 && |p| > 0 && a[|a| - 1] !in p[..|p| - 1]
    ensures NoBorder(a, p)
  {
    forall k | 0 < k < |p| && k <= |a| ensures a[|a| - k..] != p[..k] {
      assert a[|a| - k..][k - 1] == a[|a| - 1];
      assert p[..k][k - 1] == p[..|p| - 1][k - 1];
    }
  }

  /** The characters Rust's `char::is_whitespace` accepts (Unicode White_Space). */
  predicate IsWhitespace(c: char)
  {
    || c == ' '
    || ('\t' <= c <= '\r')
    || c == '\U{0085}' || c == '\U{00A0}' || c == '\U{1680}'
    || ('\U{2000}' <= c <= '\U{200A}')
    || c == '\U{2028}' || c == '\U{2029}' || c == '\U{202F}' || c == '\U{205F}'
    || c == '\U{3000}'
  }

  predicate AllWhitespace(s: string)
  {
    forall k :: 0 <= k < |s| ==> IsWhitespace(s[k])
  }

  /** `str::trim_start`: the longest whitespace prefix is dropped. */
  function TrimStart(s: string): (r: string)
    ensures |r| <= |s| && r == s[|s| - |r|..]
    ensures AllWhitespace(s[..|s| - |r|])
    ensures r == [] || !IsWhitespace(r[0])
    decreases |s|
  {
    if |s| > 0 && IsWhitespace(s[0]) then
      var r := TrimStart(s[1..]);
      assert s[1..][|s| - 1 - |r|..] == s[|s| - |r|..];
      assert s[..|s| - |r|] == [s[0]] + s[1..][..|s| - 1 - |r|];
      r
    else s
  }

  /** `str::trim_end`: the longest whitespace suffix is dropped. */
  function TrimEnd(s: string): (r: string)
    ensures |r| <= |s| && r == s[..|r|]
    ensures AllWhitespace(s[|r|..])
    ensures r == [] || !IsWhitespace(r[|r| - 1])
    decreases |s|
  {
    if |s| > 0 && IsWhitespace(s[|s| - 1]) then
      var r := TrimEnd(s[..|s| - 1]);
      assert s[..|s| - 1][..|r|] == s[..|r|];
      assert s[|r|..] == s[..|s| - 1][|r|..] + [s[|s| - 1]];
      r
    else s
  }

  /** `str::trim`: the result neither starts nor ends with whitespace;
      `TrimPadded` shows that it is what lies between the whitespace. */
  function Trim(s: string): (r: string)
    ensures |r| <= |s|
    ensures r == [] || (!IsWhitespace(r[0]) && !IsWhitespace(r[|r| - 1]))
  {
    var u := TrimStart(s);
    var r := TrimEnd(u);
    assert r == [] || r[0] == u[0];
    r
  }

  /** Leading whitespace is dropped up to the first other character. */
  lemma {:induction false} TrimStartSkipsWhitespace(w: string, s: string)
    requires AllWhitespace(w) && (s == [] || !IsWhitespace(s[0]))
    ensures TrimStart(w + s) == s
    decreases |w|
  {
    if w == [] {
      assert w + s == s;
    } else {
      assert (w + s)[1..] == w[1..] + s;
      TrimStartSkipsWhitespace(w[1..], s);
    }
  }

  /** Trailing whitespace is dropped back to the last other character. */
  lemma {:induction false} TrimEndSkipsWhitespace(s: string, w: string)
    requires AllWhitespace(w) && (s == [] || !IsWhitespace(s[|s| - 1]))
    ensures TrimEnd(s + w) == s
    decreases |w|
  {
    if w == [] {
      assert s + w == s;
    } else {
      assert (s + w)[..|s + w| - 1] == s + w[..|w| - 1];
      TrimEndSkipsWhitespace(s, w[..|w| - 1]);
    }
  }

  /** Whitespace, then text that neither starts nor ends with whitespace,
      then whitespace: trimming gives back exactly that text. */
  lemma TrimPadded(w: string, x: string, v: string)
    requires AllWhitespace(w) && AllWhitespace(v)
    requires x == [] || (!IsWhitespace(x[0]) && !IsWhitespace(x[|x| - 1]))
    ensures Trim(w + x + v) == x
  {
    if x == [] {
      assert w + x + v == (w + v) + [];
      assert AllWhitespace(w + v) by {
        forall k | 0 <= k < |w + v| ensures IsWhitespace((w + v)[k]) {
          if k >= |w| { assert (w + v)[k] == v[k - |w|]; }
        }
      }
      TrimStartSkipsWhitespace(w + v, []);
    } else {
      assert w + x + v == w + (x + v);
      TrimStartSkipsWhitespace(w, x + v);
      TrimEndSkipsWhitespace(x, v);
    }
  }

}
