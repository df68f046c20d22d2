/** The handful of Python `str` operations the downloader relies on, written
    out with their exact semantics: prefix/suffix/substring tests,
    `split(sep, 1)`, `lstrip(c)` and `replace(old, "")`. */
module Strings {

  /** `s.startswith(p)` */
  predicate StartsWith(s: string, p: string) {
    |p| <= |s| && s[..|p|] == p
  }

  /** `s.endswith(p)` */
  predicate EndsWith(s: string, p: string) {
    |p| <= |s| && s[|s| - |p|..] == p
  }

  /** `p in s`: some suffix of `s` starts with `p`. */
  predicate Contains(s: string, p: string)
    decreases |s|
  {
    StartsWith(s, p) || (|s| > 0 && Contains(s[1..], p))
  }

  /** `p in s` agrees with the positional definition: `p` occurs at some index of `s`. */
  lemma {:induction false} ContainsAt(s: string, p: string)
    ensures Contains(s, p) <==> exists i :: 0 <= i <= |s| && StartsWith(s[i..], p)
    decreases |s|
  {
    if Contains(s, p) {
      if !StartsWith(s, p) {
        ContainsAt(s[1..], p);
        var i :| 0 <= i <= |s[1..]| && StartsWith(s[1..][i..], p);
        assert s[1..][i..] == s[i + 1..];
      } else {
        assert s[0..] == s;
      }
    } else {
      forall i | 0 <= i <= |s|
        ensures !StartsWith(s[i..], p)
      {
        if i == 0 {
          assert s[0..] == s;
        } else {
          ContainsAt(s[1..], p);
          assert s[1..][i - 1..] == s[i..];
        }
      }
    }
  }

  /** The result of Python's `s.split(c, 1)`: a one-element list when `c`
      does not occur, a two-element list otherwise. */
  datatype Parts = One(whole: string) | Two(head: string, tail: string)
  {
    /** `parts[1] if len(parts) > 1 else ''` */
    function Rest(): string {
      if Two? then tail else ""
    }

    /** `parts[0]` */
    function First(): string {
      if Two? then head else whole
    }
  }

  /** `s.split(c, 1)`: cut at the first occurrence of `c`. */
  function SplitOnce(s: string, c: char): (r: Parts)
    ensures r.One? <==> c !in s
    ensures r.One? ==> r.whole == s
    ensures r.Two? ==> s == r.head + [c] + r.tail && c !in r.head
    decreases |s|
  {
    if s == [] then One([])
    else if s[0] == c then
      assert s == [] + [c] + s[1..];
      Two([], s[1..])
    else
      var rest := SplitOnce(s[1..], c);
      assert s == [s[0]] + s[1..];
      if rest.One? then One(s)
      else
        assert s == ([s[0]] + rest.head) + [c] + rest.tail;
        Two([s[0]] + rest.head, rest.tail)
  }

  /** Splitting `h + [c] + t` where `c` does not occur in `h` cuts exactly
      between `h` and `t`: the first occurrence is the one after `h`. */
  lemma {:induction false} SplitOnceAt(h: string, c: char, t: string)
    requires c !in h
    ensures SplitOnce(h + [c] + t, c) == Two(h, t)
    decreases |h|
  {
    var s := h + [c] + t;
    if h == [] {
      assert s[1..] == t;
    } else {
      assert s[1..] == h[1..] + [c] + t;
      SplitOnceAt(h[1..], c, t);
      assert [s[0]] + h[1..] == h;
    }
  }

  /** `s.lstrip(c)`: drop every leading `c`. */
  function LStrip(s: string, c: char): (r: string)
    ensures |r| <= |s| && s[|s| - |r|..] == r
    ensures r == [] || r[0] != c
    ensures forall i :: 0 <= i < |s| - |r| ==> s[i] == c
    decreases |s|
  {
    if s != [] && s[0] == c then
      var r := LStrip(s[1..], c);
      assert forall i :: 1 <= i < |s| ==> s[i] == s[1..][i - 1];
      r
    else
      s
  }

  /** `s.replace(pat, rep)`: every non-overlapping occurrence of `pat`, scanning
      left to right, is replaced by `rep`. */
  function ReplaceAll(s: string, pat: string, rep: string): string
    requires |pat| > 0
    decreases |s|
  {
    if |s| < |pat| then s
    else if s[..|pat|] == pat then rep + ReplaceAll(s[|pat|..], pat, rep)
    else [s[0]] + ReplaceAll(s[1..], pat, rep)
  }

  /** Replacing a pattern that does not occur leaves the string as it is. */
  lemma {:induction false} ReplaceAbsent(s: string, pat: string, rep: string)
    requires |pat| > 0 && !Contains(s, pat)
    ensures ReplaceAll(s, pat, rep) == s
    decreases |s|
  {
    if |s| >= |pat| {
      ReplaceAbsent(s[1..], pat, rep);
      assert [s[0]] + s[1..] == s;
    }
  }

  /** `replace` consumes an occurrence at the front and goes on after it. */
  lemma ReplaceFront(v: string, pat: string, rep: string)
    requires |pat| > 0
    ensures ReplaceAll(pat + v, pat, rep) == rep + ReplaceAll(v, pat, rep)
  {
    assert (pat + v)[..|pat|] == pat;
    assert (pat + v)[|pat|..] == v;
  }

  /** When no occurrence of the pattern starts inside `u`, `replace` copies
      `u` and works on `v` alone. */
  lemma {:induction false} ReplaceSkip(u: string, v: string, pat: string, rep: string)
    requires |pat| > 0
    requires forall i :: 0 <= i < |u| ==> !StartsWith((u + v)[i..], pat)
    ensures ReplaceAll(u + v, pat, rep) == u + ReplaceAll(v, pat, rep)
    decreases |u|
  {
    if u == [] {
      assert u + v == v;
    } else {
      var s := u + v;
      assert s[0..] == s;
      assert s[1..] == u[1..] + v;
      forall i | 0 <= i < |u[1..]|
        ensures !StartsWith((u[1..] + v)[i..], pat)
      {
        assert (u[1..] + v)[i..] == s[i + 1..];
      }
      ReplaceSkip(u[1..], v, pat, rep);
      assert [s[0]] + u[1..] == u;
    }
  }

  /** Deleting a pattern never lengthens a string, and shortens it by at
      least the pattern's length when the pattern occurs. */
  lemma {:induction false} ReplaceShrinks(s: string, pat: string)
    requires |pat| > 0
    ensures |ReplaceAll(s, pat, "")| <= |s|
    ensures Contains(s, pat) ==> |ReplaceAll(s, pat, "")| + |pat| <= |s|
    decreases |s|
  {
    if |s| < |pat| {
      ContainsAt(s, pat);
    } else if s[..|pat|] == pat {
      ReplaceShrinks(s[|pat|..], pat);
    } else {
      ReplaceShrinks(s[1..], pat);
    }
  }
}
