/** Base URLs as the program compares them. */
module Urls {

  predicate IsSpace(c: char) {
    c == ' ' || c == '\t' || c == '\n' || c == '\r' || c == '\U{000B}' || c == '\U{000C}'
  }

  function LStrip(s: string): (r: string)
    ensures |r| <= |s|
    ensures |r| == |s| ==> r == s
  {
    if s != "" && IsSpace(s[0]) then LStrip(s[1..]) else s
  }

  function RStrip(s: string): (r: string)
    ensures |r| <= |s|
    ensures |r| == |s| ==> r == s
  {
    if s != "" && IsSpace(s[|s| - 1]) then RStrip(s[..|s| - 1]) else s
  }

  function Strip(s: string): (r: string)
    ensures |r| <= |s|
    ensures |r| == |s| ==> r == s
  {
    RStrip(LStrip(s))
  }

  /** Also MySQL's TRIM(TRAILING '/' FROM s). */
  function RStripSlash(s: string): (r: string)
    ensures |r| <= |s|
    ensures |r| == |s| ==> r == s
    ensures r != "" ==> r[|r| - 1] != '/'
  {
    if s != "" && s[|s| - 1] == '/' then RStripSlash(s[..|s| - 1]) else s
  }

  /** `normalize_base_url` */
  function Normalize(s: string): (r: string)
    ensures |r| <= |s|
    ensures |r| == |s| ==> r == s == Strip(s)
    ensures RStripSlash(r) == r
  {
    RStripSlash(Strip(s))
  }

  /** Column widths: `s[:n]` */
  function Prefix(s: string, n: nat): string {
    if |s| <= n then s else s[..n]
  }

  /** Neither end is a blank. */
  predicate Trimmed(s: string) {
    s == "" || (!IsSpace(s[0]) && !IsSpace(s[|s| - 1]))
  }

  lemma {:induction false} LStripIs(s: string)
    ensures var r := LStrip(s); r == s[|s| - |r|..] && (r == "" || !IsSpace(r[0]))
  {
    if s != "" && IsSpace(s[0]) {
      LStripIs(s[1..]);
    }
  }

  lemma {:induction false} RStripIs(s: string)
    ensures var r := RStrip(s); r == s[..|r|] && (r == "" || !IsSpace(r[|r| - 1]))
  {
    if s != "" && IsSpace(s[|s| - 1]) {
      RStripIs(s[..|s| - 1]);
    }
  }

  lemma StripTrims(s: string)
    ensures Trimmed(Strip(s))
  {
    LStripIs(s);
    RStripIs(LStrip(s));
  }

  /** Stripping leaves a string alone exactly if neither end is a blank. */
  lemma StripFixedIff(s: string)
    ensures Strip(s) == s <==> Trimmed(s)
  {
    StripTrims(s);
  }

  lemma {:induction false} SlashesOff(s: string)
    ensures var r := RStripSlash(s);
            && r == s[..|r|]
            && (forall i :: |r| <= i < |s| ==> s[i] == '/')
  {
    if s != "" && s[|s| - 1] == '/' {
      SlashesOff(s[..|s| - 1]);
    }
  }

  /** Stripping a prefix that reaches past the slashes gives the same. */
  lemma {:induction false} SlashesOffPrefix(s: string, w: nat)
    requires |RStripSlash(s)| <= w <= |s|
    ensures RStripSlash(s[..w]) == RStripSlash(s)
  {
    if w < |s| {
      SlashesOff(s);
      SlashesOffPrefix(s[..|s| - 1], w);
      assert s[..|s| - 1][..w] == s[..w];
    } else {
      assert s[..w] == s;
    }
  }

  /** Normalizing twice is normalizing once, exactly if no blank is left in front of the slashes. */
  lemma NormalizeAgainIff(s: string)
    ensures Normalize(Normalize(s)) == Normalize(s)
      <==> Normalize(s) == "" || !IsSpace(Normalize(s)[|Normalize(s)| - 1])
  {
    var n := Normalize(s);
    StripTrims(s);
    SlashesOff(Strip(s));
    StripFixedIff(n);
  }

  /** For example, a blank in front of a trailing slash is left. */
  lemma NormalizeNotIdempotent(s: string)
    requires s != "" && !IsSpace(s[0])
    ensures Normalize(Normalize(s + " /")) != Normalize(s + " /")
  {
    var full := s + " /";
    StripFixedIff(full);
    assert full[..|s| + 1] == s + " ";
    assert RStripSlash(full) == RStripSlash(full[..|s| + 1]) == s + " ";
    NormalizeAgainIff(full);
  }

  /** A stripped URL still normalizes to the same after it was cut to `w` characters, exactly if the
      cut took nothing but slashes and left no blank at the end. */
  lemma CutKeepsUrlIff(s: string, w: nat)
    requires Trimmed(s) && w > 0
    ensures Normalize(Prefix(s, w)) == Normalize(s) <==> FitsWidth(s, w)
  {
    StripFixedIff(s);
    var n := Normalize(s);
    assert n == RStripSlash(s);
    SlashesOff(s);
    if |s| > w {
      var q := Prefix(s, w);
      StripFixedIff(q);
      if |n| < w {
        SlashesOffPrefix(s, w);
      } else if |n| == w {
        assert q == n;
        StripTrims(q);
      }
    }
  }

  predicate FitsWidth(s: string, w: nat)
    requires w > 0
  {
    var n := RStripSlash(s);
    |s| <= w || |n| < w || (|n| == w && !IsSpace(n[w - 1]))
  }
}
