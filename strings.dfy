/**
 * Literal text search and replacement, as the renderer uses it.
 *
 * `ReplaceFirst` is `String.prototype.replace` with a string pattern: only the
 * leftmost occurrence is replaced.  `ReplaceAll` is `replace` with a global
 * regular expression whose source is literal text: the string is scanned from
 * left to right, every non-overlapping occurrence is replaced, and scanning
 * resumes after the matched text, so the inserted text is never rescanned.
 */
module Strings {
  import opened Wrappers

  /** `pat` occurs in `s` starting at index `i`. */
  predicate MatchesAt(s: string, pat: string, i: nat)
  {
    i + |pat| <= |s| && s[i..i + |pat|] == pat
  }

  /** `pat` occurs somewhere in `s`. */
  predicate Occurs(s: string, pat: string)
  {
    exists i: nat :: i <= |s| && MatchesAt(s, pat, i)
  }

  /** No occurrence of `pat` starts before index `k`. */
  predicate NoMatchBefore(s: string, pat: string, k: nat)
  {
    forall j: nat :: j < k ==> !MatchesAt(s, pat, j)
  }

  predicate IsPrefix(a: string, b: string)
  {
    |a| <= |b| && b[..|a|] == a
  }

  /** An occurrence in `s` past its first character is an occurrence in its tail. */
  lemma TailMatches(s: string, pat: string)
    requires |s| > 0
    ensures forall j: nat :: MatchesAt(s[1..], pat, j) == MatchesAt(s, pat, j + 1)
    ensures forall j: nat :: 0 < j ==> MatchesAt(s, pat, j) == MatchesAt(s[1..], pat, j - 1)
  {
    forall j: nat ensures MatchesAt(s[1..], pat, j) == MatchesAt(s, pat, j + 1) {
      if j + 1 + |pat| <= |s| {
        assert s[1..][j..j + |pat|] == s[j + 1..j + 1 + |pat|];
      }
    }
  }

  /** `s.indexOf(pat)`: the leftmost occurrence, with `None` for JavaScript's -1. */
  function IndexOf(s: string, pat: string): (r: Option<nat>)
    ensures r.Some? <==> Occurs(s, pat)
    ensures r.Some? ==> MatchesAt(s, pat, r.value) && NoMatchBefore(s, pat, r.value)
    decreases |s|
  {
    if MatchesAt(s, pat, 0) then Some(0)
    else if |s| == 0 then None
    else
      TailMatches(s, pat);
      match IndexOf(s[1..], pat)
      case None => None
      case Some(k) => Some(k + 1)
  }

  /** `s.replace(pat, rep)` with a literal replacement. */
  function ReplaceFirst(s: string, pat: string, rep: string): (r: string)
    ensures !Occurs(s, pat) ==> r == s
  {
    match IndexOf(s, pat)
    case None => s
    case Some(i) => s[..i] + rep + s[i + |pat|..]
  }

  /**
   * `s.replace(new RegExp(pat, "g"), rep)` for a literal, non-empty `pat`: the
   * scan replaces a match that starts here and resumes after it, or keeps one
   * character and moves on.
   */
  function ReplaceAll(s: string, pat: string, rep: string): string
    requires |pat| > 0
    decreases |s|
  {
    if s == [] then []
    else if MatchesAt(s, pat, 0) then rep + ReplaceAll(s[|pat|..], pat, rep)
    else [s[0]] + ReplaceAll(s[1..], pat, rep)
  }

  /** `s.padStart(width, [fill])`: left-pads, never truncates. */
  function PadStart(s: string, width: nat, fill: char): string
  {
    if |s| >= width then s else seq(width - |s|, _ => fill) + s
  }

  /** The padded text is `width` long or `s` itself when longer: `s` is its suffix, the rest is fill. */
  lemma PadStartShape(s: string, width: nat, fill: char)
    ensures var r := PadStart(s, width, fill);
      && |r| == (if |s| >= width then |s| else width)
      && r[|r| - |s|..] == s
      && forall k :: 0 <= k < |r| - |s| ==> r[k] == fill
  {
    var r := PadStart(s, width, fill);
    if |s| < width {
      assert r[|r| - |s|..] == s;
    }
  }

  /** The pieces of `parts` with `sep` between consecutive ones. */
  function Join(parts: seq<string>, sep: string): string
    decreases |parts|
  {
    if |parts| == 0 then []
    else if |parts| == 1 then parts[0]
    else parts[0] + sep + Join(parts[1..], sep)
  }

  /** A token that ends with `}` and holds no other `}`. */
  predicate Closed(t: string)
  {
    |t| > 0 && t[|t| - 1] == '}' && '}' !in t[..|t| - 1]
  }

  /** A text in which `c` does not occur in any of `parts`. */
  predicate AllFree(parts: seq<string>, c: char)
  {
    forall k :: 0 <= k < |parts| ==> c !in parts[k]
  }

  // ---------------------------------------------------------------------------
  // Lemmas

  /** A pattern cannot occur in a text that lacks its first character. */
  lemma HeadFreeNotOccurs(s: string, pat: string)
    requires |pat| > 0 && pat[0] !in s
    ensures !Occurs(s, pat)
  {
    forall i: nat | i <= |s| ensures !MatchesAt(s, pat, i) {
      if i + |pat| <= |s| {
        assert s[i..i + |pat|][0] == s[i];
      }
    }
  }

  /** No occurrence can start inside a prefix that lacks the pattern's first character. */
  lemma HeadFreePrefix(a: string, t: string, pat: string)
    requires |pat| > 0 && pat[0] !in a
    ensures NoMatchBefore(a + t, pat, |a|)
  {
    forall j: nat | j < |a| ensures !MatchesAt(a + t, pat, j) {
      if j + |pat| <= |a + t| {
        assert (a + t)[j..j + |pat|][0] == (a + t)[j] == a[j];
      }
    }
  }

  /** With no occurrence starting inside `a`, `a + s` holds the pattern only if `s` does. */
  lemma OccursAfter(a: string, s: string, pat: string)
    requires NoMatchBefore(a + s, pat, |a|) && !Occurs(s, pat)
    ensures !Occurs(a + s, pat)
  {
    forall j: nat | |a| <= j <= |a + s| ensures !MatchesAt(a + s, pat, j) {
      if j + |pat| <= |a + s| {
        assert (a + s)[j..j + |pat|] == s[j - |a|..j - |a| + |pat|];
      }
      assert !MatchesAt(s, pat, j - |a|);
    }
  }

  /** When the first occurrence of `pat` is the one after `a`, only it is replaced: `b` stays literal. */
  lemma ReplaceFirstAt(a: string, pat: string, rep: string, b: string)
    requires NoMatchBefore(a + pat + b, pat, |a|)
    ensures ReplaceFirst(a + pat + b, pat, rep) == a + rep + b
  {
    var s := a + pat + b;
    assert s[|a|..|a| + |pat|] == pat;
    assert MatchesAt(s, pat, |a|);
    var i := IndexOf(s, pat).value;
    assert i == |a|;
    assert s[..i] == a;
    assert s[i + |pat|..] == b;
  }

  /** A text without the pattern comes out unchanged. */
  lemma {:induction false} ReplaceAllAbsent(s: string, pat: string, rep: string)
    requires |pat| > 0 && !Occurs(s, pat)
    ensures ReplaceAll(s, pat, rep) == s
    decreases |s|
  {
    if s != [] {
      assert !MatchesAt(s, pat, 0);
      TailMatches(s, pat);
      ReplaceAllAbsent(s[1..], pat, rep);
      assert [s[0]] + s[1..] == s;
    }
  }

  /** When no occurrence starts inside `a`, `a` is kept and the scan goes on in `s`. */
  lemma {:induction false} ReplaceAllSkip(a: string, s: string, pat: string, rep: string)
    requires |pat| > 0 && NoMatchBefore(a + s, pat, |a|)
    ensures ReplaceAll(a + s, pat, rep) == a + ReplaceAll(s, pat, rep)
    decreases |a|
  {
    if a == [] {
      assert a + s == s;
    } else {
      var x := a + s;
      assert !MatchesAt(x, pat, 0);
      assert x[1..] == a[1..] + s;
      TailMatches(x, pat);
      assert NoMatchBefore(a[1..] + s, pat, |a| - 1) by {
        forall j: nat | j < |a| - 1 ensures !MatchesAt(x[1..], pat, j) {
          assert !MatchesAt(x, pat, j + 1);
        }
      }
      ReplaceAllSkip(a[1..], s, pat, rep);
      assert [a[0]] + (a[1..] + ReplaceAll(s, pat, rep)) == a + ReplaceAll(s, pat, rep);
    }
  }

  /** When the first occurrence of `pat` is the one after `a`, it is replaced and the scan resumes in `b`. */
  lemma ReplaceAllAt(a: string, pat: string, rep: string, b: string)
    requires |pat| > 0
    requires NoMatchBefore(a + pat + b, pat, |a|)
    ensures ReplaceAll(a + pat + b, pat, rep) == a + rep + ReplaceAll(b, pat, rep)
  {
    assert a + pat + b == a + (pat + b);
    ReplaceAllSkip(a, pat + b, pat, rep);
    assert (pat + b)[..|pat|] == pat;
    assert (pat + b)[|pat|..] == b;
    assert ReplaceAll(pat + b, pat, rep) == rep + ReplaceAll(b, pat, rep);
  }

  /** A text opening with the pattern: that occurrence is replaced and the scan resumes after it. */
  lemma ReplaceAllHead(pat: string, rep: string, b: string)
    requires |pat| > 0
    ensures ReplaceAll(pat + b, pat, rep) == rep + ReplaceAll(b, pat, rep)
  {
    assert MatchesAt(pat + b, pat, 0) by {
      assert (pat + b)[..|pat|] == pat;
    }
    assert (pat + b)[|pat|..] == b;
  }

  /**
   * No occurrence of a closed token `pat` starts inside a different closed
   * token `t`, when both open with `{` and `t` holds no other `{`.
   */
  lemma ClosedTokenSkip(t: string, s: string, pat: string)
    requires Closed(t) && Closed(pat) && t != pat
    requires t[0] == '{' && pat[0] == '{' && '{' !in t[1..]
    ensures NoMatchBefore(t + s, pat, |t|)
  {
    forall j: nat | j < |t| ensures !MatchesAt(t + s, pat, j) {
      if j == 0 {
        if |pat| <= |t| {
          assert (t + s)[..|pat|] == t[..|pat|];
          ClosedPrefix(pat, t);
        } else if |pat| <= |t + s| {
          assert (t + s)[..|pat|][..|t|] == t;
          ClosedPrefix(t, pat);
        }
      } else if j + |pat| <= |t + s| {
        assert (t + s)[j..j + |pat|][0] == (t + s)[j] == t[1..][j - 1];
      }
    }
  }

  /** Every occurrence of `pat` between literal pieces free of its first character is replaced by `rep`. */
  lemma {:induction false} ReplaceAllJoin(parts: seq<string>, pat: string, rep: string)
    requires |pat| > 0 && AllFree(parts, pat[0])
    ensures ReplaceAll(Join(parts, pat), pat, rep) == Join(parts, rep)
    decreases |parts|
  {
    if |parts| == 0 {
      HeadFreeNotOccurs([], pat);
      ReplaceAllAbsent([], pat, rep);
    } else if |parts| == 1 {
      assert pat[0] !in parts[0];
      HeadFreeNotOccurs(parts[0], pat);
      ReplaceAllAbsent(parts[0], pat, rep);
    } else {
      var rest := Join(parts[1..], pat);
      assert pat[0] !in parts[0];
      HeadFreePrefix(parts[0], pat + rest, pat);
      assert parts[0] + (pat + rest) == parts[0] + pat + rest;
      ReplaceAllAt(parts[0], pat, rep, rest);
      assert AllFree(parts[1..], pat[0]) by {
        forall k | 0 <= k < |parts[1..]| ensures pat[0] !in parts[1..][k] {
          assert parts[1..][k] == parts[k + 1];
        }
      }
      ReplaceAllJoin(parts[1..], pat, rep);
    }
  }

  /** The text that starts right after `x` in `x + y + z`. */
  lemma SliceAt(x: string, y: string, z: string, m: nat)
    ensures m <= |y| ==> (x + y + z)[|x|..|x| + m] == y[..m]
    ensures |y| <= m <= |y| + |z| ==> (x + y + z)[|x|..|x| + m][..|y|] == y
  {
    var s := x + y + z;
    if m <= |y| {
      forall i | 0 <= i < m ensures s[|x|..|x| + m][i] == y[..m][i] {
        assert s[|x| + i] == y[i];
      }
    }
    if |y| <= m <= |y| + |z| {
      forall i | 0 <= i < |y| ensures s[|x|..|x| + m][..|y|][i] == y[i] {
        assert s[|x| + i] == y[i];
      }
    }
  }

  /** Of two different closed tokens, neither is a prefix of the other. */
  lemma ClosedPrefix(a: string, b: string)
    requires Closed(a) && Closed(b) && a != b
    ensures !IsPrefix(a, b)
  {
    if |a| < |b| {
      assert b[..|a|][|a| - 1] == b[..|b| - 1][|a| - 1];
    }
  }

  /**
   * A closed token `pat` never occurs in pieces free of `{` joined by a different
   * closed token `sep`, when both start with `{` and `sep` holds no other `{`.
   */
  lemma {:induction false} NoOccurInJoin(parts: seq<string>, sep: string, pat: string)
    requires Closed(pat) && Closed(sep) && pat != sep
    requires pat[0] == '{' && sep[0] == '{' && '{' !in sep[1..]
    requires AllFree(parts, '{')
    ensures !Occurs(Join(parts, sep), pat)
    decreases |parts|
  {
    if |parts| == 0 {
      HeadFreeNotOccurs([], pat);
    } else if |parts| == 1 {
      assert '{' !in parts[0];
      HeadFreeNotOccurs(parts[0], pat);
    } else {
      var p := parts[0];
      var rest := Join(parts[1..], sep);
      var s := p + sep + rest;
      assert s == Join(parts, sep);
      assert AllFree(parts[1..], '{') by {
        forall k | 0 <= k < |parts[1..]| ensures '{' !in parts[1..][k] {
          assert parts[1..][k] == parts[k + 1];
        }
      }
      NoOccurInJoin(parts[1..], sep, pat);
      assert '{' !in p;
      forall j: nat | j <= |s| ensures !MatchesAt(s, pat, j) {
        if j < |p| {
          if j + |pat| <= |s| {
            assert s[j..j + |pat|][0] == s[j] == p[j];
          }
        } else if j == |p| {
          if |pat| <= |sep| {
            SliceAt(p, sep, rest, |pat|);
            ClosedPrefix(pat, sep);
          } else if j + |pat| <= |s| {
            SliceAt(p, sep, rest, |pat|);
            ClosedPrefix(sep, pat);
          }
        } else if j < |p| + |sep| {
          if j + |pat| <= |s| {
            assert s[j..j + |pat|][0] == s[j] == sep[1..][j - |p| - 1];
          }
        } else {
          var j' := j - |p| - |sep|;
          assert !MatchesAt(rest, pat, j');
          if j + |pat| <= |s| {
            assert s[j..j + |pat|] == rest[j'..j' + |pat|];
          }
        }
      }
    }
  }
}
