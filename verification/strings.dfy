/** The Python string operations the core uses: `str.split()` with no
    argument, `' '.join(words)` and `str.replace(pat, rep)`. */
module Strings {

  /** `c.isspace()`: the characters `str.split()` treats as separators. */
  predicate IsSpace(c: char) {
    var n := c as int;
    (0x09 <= n <= 0x0D) || (0x1C <= n <= 0x20) || n == 0x85 || n == 0xA0
    || n == 0x1680 || (0x2000 <= n <= 0x200A) || n == 0x2028 || n == 0x2029
    || n == 0x202F || n == 0x205F || n == 0x3000
  }

  predicate NoSpace(s: string) {
    forall i :: 0 <= i < |s| ==> !IsSpace(s[i])
  }

  /** A word as `str.split()` yields it: non-empty, without whitespace. */
  predicate IsWord(w: string) {
    |w| > 0 && NoSpace(w)
  }

  /** Length of the leading run of non-whitespace characters. */
  function WordLength(s: string): (n: nat)
    ensures n <= |s|
    ensures NoSpace(s[..n])
    ensures n < |s| ==> IsSpace(s[n])
  {
    if |s| == 0 || IsSpace(s[0]) then 0
    else
      var n := 1 + WordLength(s[1..]);
      assert s[..n] == [s[0]] + s[1..][..n - 1];
      n
  }

  /** `s.split()`: the maximal runs of non-whitespace, in order. */
  function Split(s: string): (ws: seq<string>)
    ensures forall i :: 0 <= i < |ws| ==> IsWord(ws[i])
    decreases |s|
  {
    if |s| == 0 then []
    else if IsSpace(s[0]) then Split(s[1..])
    else
      var n := WordLength(s);
      [s[..n]] + Split(s[n..])
  }

  /** `' '.join(ws)` */
  function JoinWords(ws: seq<string>): string {
    if |ws| == 0 then ""
    else if |ws| == 1 then ws[0]
    else ws[0] + " " + JoinWords(ws[1..])
  }

  lemma SplitSkipsSpace(s: string)
    requires |s| > 0 && IsSpace(s[0])
    ensures Split(s) == Split(s[1..])
  {
  }

  lemma SplitWordThen(w: string, t: string)
    requires IsWord(w)
    requires |t| == 0 || IsSpace(t[0])
    ensures Split(w + t) == [w] + Split(t)
  {
    var s := w + t;
    WordLengthOf(w, t);
    assert s[..|w|] == w;
    assert s[|w|..] == t;
  }

  lemma {:induction false} WordLengthOf(w: string, t: string)
    requires NoSpace(w)
    requires |t| == 0 || IsSpace(t[0])
    ensures WordLength(w + t) == |w|
    decreases |w|
  {
    if |w| == 0 {
      assert w + t == t;
    } else {
      assert (w + t)[1..] == w[1..] + t;
      WordLengthOf(w[1..], t);
    }
  }

  /** Splitting words joined by single spaces gives the words back. */
  lemma {:induction false} SplitJoinWords(ws: seq<string>)
    requires forall i :: 0 <= i < |ws| ==> IsWord(ws[i])
    ensures Split(JoinWords(ws)) == ws
  {
    if |ws| == 0 {
    } else if |ws| == 1 {
      SplitWordThen(ws[0], "");
      assert ws[0] + "" == ws[0];
    } else {
      var rest := JoinWords(ws[1..]);
      assert JoinWords(ws) == ws[0] + (" " + rest);
      SplitWordThen(ws[0], " " + rest);
      SplitSkipsSpace(" " + rest);
      assert (" " + rest)[1..] == rest;
      SplitJoinWords(ws[1..]);
      assert ws == [ws[0]] + ws[1..];
    }
  }

  /** `p in s` for strings: some window of `s` equals `p`. */
  predicate Occurs(s: string, p: string) {
    exists i :: 0 <= i <= |s| - |p| && s[i..][..|p|] == p
  }

  /** Without an occurrence, the first window differs from `p` and the rest
      of the string has no occurrence either. */
  lemma AbsentStep(s: string, p: string)
    requires |s| >= |p| && |s| > 0 && !Occurs(s, p)
    ensures s[..|p|] != p && !Occurs(s[1..], p)
  {
    assert s[0..][..|p|] == s[..|p|];
    forall i | 0 <= i <= |s[1..]| - |p|
      ensures s[1..][i..][..|p|] != p
    {
      assert s[1..][i..] == s[i + 1..];
    }
  }

  /** `s.replace(pat, rep)`: every non-overlapping occurrence of `pat`, found
      left to right, is replaced; an empty `pat` inserts `rep` before every
      character and at the end. */
  function ReplaceAll(s: string, pat: string, rep: string): string
    decreases |s|
  {
    if |pat| == 0 then InsertEverywhere(s, rep)
    else if |s| < |pat| then s
    else if s[..|pat|] == pat then rep + ReplaceAll(s[|pat|..], pat, rep)
    else [s[0]] + ReplaceAll(s[1..], pat, rep)
  }

  function InsertEverywhere(s: string, rep: string): string {
    if |s| == 0 then rep else rep + [s[0]] + InsertEverywhere(s[1..], rep)
  }

  /** With no occurrence of `pat`, replacing changes nothing. */
  lemma {:induction false} ReplaceAbsent(s: string, pat: string, rep: string)
    requires |pat| > 0 && !Occurs(s, pat)
    ensures ReplaceAll(s, pat, rep) == s
    decreases |s|
  {
    if |s| >= |pat| {
      AbsentStep(s, pat);
      ReplaceAbsent(s[1..], pat, rep);
      assert s == [s[0]] + s[1..];
    }
  }

  /** Replacing a string by itself changes nothing. */
  lemma {:induction false} ReplaceBySelf(s: string, pat: string)
    ensures ReplaceAll(s, pat, pat) == s
    decreases |s|
  {
    if |pat| == 0 {
      InsertNothing(s);
    } else if |s| < |pat| {
    } else if s[..|pat|] == pat {
      ReplaceBySelf(s[|pat|..], pat);
      assert s == s[..|pat|] + s[|pat|..];
    } else {
      ReplaceBySelf(s[1..], pat);
      assert s == [s[0]] + s[1..];
    }
  }

  lemma {:induction false} InsertNothing(s: string)
    ensures InsertEverywhere(s, "") == s
  {
    if |s| > 0 {
      InsertNothing(s[1..]);
      assert s == [s[0]] + s[1..];
    }
  }

  /** A pattern holding a character that `s` lacks cannot occur in `s`. */
  lemma MissingCharNoOccurrence(s: string, p: string, c: char)
    requires c in p && c !in s
    ensures !Occurs(s, p)
  {
    var k :| 0 <= k < |p| && p[k] == c;
    forall i | 0 <= i <= |s| - |p|
      ensures s[i..][..|p|] != p
    {
      assert s[i..][..|p|][k] == s[i + k];
    }
  }

  /** No window starting inside such a prefix `a` can equal `pat`. */
  lemma NoMatchAtPrefix(a: string, t: string, pat: string, c: char)
    requires |pat| > 0 && c in pat && c !in a && |a| > 0
    requires a[|a| - 1] !in pat
    requires |a + t| >= |pat|
    ensures (a + t)[..|pat|] != pat
  {
    var s := a + t;
    if |pat| <= |a| {
      assert s[..|pat|] == a[..|pat|];
      var k :| 0 <= k < |pat| && pat[k] == c;
      assert a[..|pat|][k] == a[k];
    } else {
      assert s[..|pat|][|a| - 1] == a[|a| - 1];
    }
  }

  /** One step of `ReplaceAll` on a string whose first window is not `pat`. */
  lemma ReplaceStep(s: string, pat: string, rep: string)
    requires |pat| > 0 && |s| >= |pat| && s[..|pat|] != pat
    ensures ReplaceAll(s, pat, rep) == [s[0]] + ReplaceAll(s[1..], pat, rep)
  {
  }

  /** Replacement passes over a prefix `a` that no occurrence of `pat` can
      start in: `pat` holds a character `a` lacks, and `a`'s last character is
      not in `pat`, so no window starting in `a` equals `pat`. */
  lemma {:induction false} ReplaceSkipsPrefix(a: string, t: string, pat: string, rep: string, c: char)
    requires |pat| > 0 && c in pat && c !in a
    requires |a| > 0 ==> a[|a| - 1] !in pat
    ensures ReplaceAll(a + t, pat, rep) == a + ReplaceAll(t, pat, rep)
    decreases |a|
  {
    if |a| == 0 {
      assert a + t == t;
    } else if |a + t| < |pat| {
      ShortUnchanged(a, t, pat, rep);
    } else {
      SkipFirst(a, t, pat, rep, c);
      if |a| > 1 {
        assert a[1..][|a[1..]| - 1] == a[|a| - 1];
      }
      ReplaceSkipsPrefix(a[1..], t, pat, rep, c);
      ConsBack(a, ReplaceAll(t, pat, rep));
    }
  }

  /** A string shorter than the pattern is left alone, and so is its tail. */
  lemma ShortUnchanged(a: string, t: string, pat: string, rep: string)
    requires |pat| > 0 && |a + t| < |pat|
    ensures ReplaceAll(a + t, pat, rep) == a + ReplaceAll(t, pat, rep)
  {
    assert ReplaceAll(t, pat, rep) == t;
  }

  /** The first character of such a prefix is copied. */
  lemma SkipFirst(a: string, t: string, pat: string, rep: string, c: char)
    requires |pat| > 0 && c in pat && c !in a && |a| > 0 && a[|a| - 1] !in pat
    requires |a + t| >= |pat|
    ensures ReplaceAll(a + t, pat, rep) == [a[0]] + ReplaceAll(a[1..] + t, pat, rep)
  {
    NoMatchAtPrefix(a, t, pat, c);
    ReplaceStep(a + t, pat, rep);
    FirstAndRest(a, t);
  }

  lemma ConsBack(a: string, r: string)
    requires |a| > 0
    ensures [a[0]] + (a[1..] + r) == a + r
  {
    assert [a[0]] + a[1..] == a;
  }

  /** The first character and the rest of a concatenation with a non-empty
      front. */
  lemma FirstAndRest(a: string, t: string)
    requires |a| > 0
    ensures (a + t)[0] == a[0] && (a + t)[1..] == a[1..] + t
  {
  }

  /** An occurrence at the very start is replaced. */
  lemma ReplaceAtStart(t: string, pat: string, rep: string)
    requires |pat| > 0
    ensures ReplaceAll(pat + t, pat, rep) == rep + ReplaceAll(t, pat, rep)
  {
    var s := pat + t;
    assert s[..|pat|] == pat;
    assert s[|pat|..] == t;
  }
  /** The one occurrence of `pat` between a prefix and a suffix that cannot
      take part in a match is the only thing replaced. */
  lemma ReplaceBetween(a: string, pat: string, b: string, rep: string, c: char)
    requires |pat| > 0 && c in pat && c !in a && c !in b
    requires |a| > 0 ==> a[|a| - 1] !in pat
    ensures ReplaceAll(a + pat + b, pat, rep) == a + rep + b
  {
    calc {
      ReplaceAll(a + pat + b, pat, rep);
      { assert a + pat + b == a + (pat + b); }
      ReplaceAll(a + (pat + b), pat, rep);
      { ReplaceSkipsPrefix(a, pat + b, pat, rep, c); }
      a + ReplaceAll(pat + b, pat, rep);
      { ReplaceAtStart(b, pat, rep); }
      a + (rep + ReplaceAll(b, pat, rep));
      { ReplaceMissingChar(b, pat, rep, c); }
      a + (rep + b);
    }
  }

  /** A pattern holding a character that `s` lacks is not replaced anywhere. */
  lemma ReplaceMissingChar(s: string, pat: string, rep: string, c: char)
    requires c in pat && c !in s
    ensures ReplaceAll(s, pat, rep) == s
  {
    MissingCharNoOccurrence(s, pat, c);
    ReplaceAbsent(s, pat, rep);
  }

  /** A window equal to `p` is an occurrence. */
  lemma OccursAt(s: string, p: string, i: nat)
    requires i + |p| <= |s| && s[i..i + |p|] == p
    ensures Occurs(s, p)
  {
    assert s[i..][..|p|] == s[i..i + |p|];
  }
}
