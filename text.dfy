/** The two standard string operations the core relies on: `str::replace`
    (replace every leftmost, non-overlapping occurrence of a pattern) and
    `[&str]::join`, with the facts about them that the rest of the model uses. */
module Text {

  /** `p` occurs in `s` starting at index `i`. */
  predicate OccursAt(s: string, p: string, i: nat) {
    i + |p| <= |s| && s[i..i + |p|] == p
  }

  /** `p` occurs somewhere in `s`. */
  predicate Occurs(s: string, p: string) {
    exists i: nat | i <= |s| :: OccursAt(s, p, i)
  }

  /** `s.replace(pat, rep)` for a non-empty `pat`: scan left to right; where
      `pat` starts, emit `rep` and skip past the match, otherwise copy one
      character. */
  function ReplaceAll(s: string, pat: string, rep: string): string
    requires |pat| > 0
  {
    if s == [] then []
    else if OccursAt(s, pat, 0) then rep + ReplaceAll(s[|pat|..], pat, rep)
    else [s[0]] + ReplaceAll(s[1..], pat, rep)
  }

  /** Number of non-overlapping occurrences that ReplaceAll rewrites. */
  function Matches(s: string, pat: string): nat
    requires |pat| > 0
  {
    if s == [] then 0
    else if OccursAt(s, pat, 0) then 1 + Matches(s[|pat|..], pat)
    else Matches(s[1..], pat)
  }

  /** An occurrence in a suffix is an occurrence in the whole string. */
  lemma OccursInSuffix(s: string, p: string, k: nat, i: nat)
    requires k <= |s|
    requires OccursAt(s[k..], p, i)
    ensures OccursAt(s, p, k + i)
  {
    assert s[k..][i..i + |p|] == s[k + i..k + i + |p|];
  }

  /** Replacing a pattern that does not occur leaves the text unchanged. */
  lemma {:induction false} ReplaceAbsent(s: string, pat: string, rep: string)
    requires |pat| > 0
    requires !Occurs(s, pat)
    ensures ReplaceAll(s, pat, rep) == s
  {
    if s != [] {
      assert !OccursAt(s, pat, 0);
      forall i: nat | OccursAt(s[1..], pat, i) ensures false {
        OccursInSuffix(s, pat, 1, i);
      }
      ReplaceAbsent(s[1..], pat, rep);
      assert s == [s[0]] + s[1..];
    }
  }

  /** Replacing a pattern by itself leaves the text unchanged. */
  lemma {:induction false} ReplaceBySelf(s: string, pat: string)
    requires |pat| > 0
    ensures ReplaceAll(s, pat, pat) == s
  {
    if s != [] {
      if OccursAt(s, pat, 0) {
        ReplaceBySelf(s[|pat|..], pat);
        assert s == s[..|pat|] + s[|pat|..];
      } else {
        ReplaceBySelf(s[1..], pat);
        assert s == [s[0]] + s[1..];
      }
    }
  }

  /** Each rewritten occurrence changes the length by `|rep| - |pat|`. */
  lemma {:induction false} ReplaceLength(s: string, pat: string, rep: string)
    requires |pat| > 0
    ensures |ReplaceAll(s, pat, rep)| == |s| + Matches(s, pat) * (|rep| - |pat|)
  {
    if s != [] {
      if OccursAt(s, pat, 0) {
        ReplaceLength(s[|pat|..], pat, rep);
        Distribute(Matches(s[|pat|..], pat), |rep| - |pat|);
      } else {
        ReplaceLength(s[1..], pat, rep);
      }
    }
  }

  lemma Distribute(m: int, d: int)
    ensures (1 + m) * d == d + m * d
  {
  }

  /** Matches counts at least one occurrence whenever the pattern occurs. */
  lemma {:induction false} MatchesPositive(s: string, pat: string, i: nat)
    requires |pat| > 0
    requires OccursAt(s, pat, i)
    ensures Matches(s, pat) > 0
    decreases i
  {
    if !OccursAt(s, pat, 0) {
      assert s[1..][i - 1..i - 1 + |pat|] == s[i..i + |pat|];
      MatchesPositive(s[1..], pat, i - 1);
    }
  }

  /** The text comes back unchanged exactly when the pattern does not occur
      or is replaced by itself. */
  lemma {:induction false} ReplaceUnchangedIff(s: string, pat: string, rep: string)
    requires |pat| > 0
    ensures ReplaceAll(s, pat, rep) == s <==> (!Occurs(s, pat) || rep == pat)
  {
    if !Occurs(s, pat) {
      ReplaceAbsent(s, pat, rep);
    } else if rep == pat {
      ReplaceBySelf(s, pat);
    } else {
      var i: nat :| i <= |s| && OccursAt(s, pat, i);
      if |rep| != |pat| {
        MatchesPositive(s, pat, i);
        ReplaceLength(s, pat, rep);
        NonZeroProduct(Matches(s, pat), |rep| - |pat|);
      } else if ReplaceAll(s, pat, rep) == s {
        ReplaceKeepsNoChange(s, pat, rep);
      }
    }
  }

  lemma NonZeroProduct(m: nat, d: int)
    requires m > 0 && d != 0
    ensures m * d != 0
  {
  }

  /** With a replacement of the pattern's length but different from it, any
      occurrence makes the output differ from the input. */
  lemma {:induction false} ReplaceKeepsNoChange(s: string, pat: string, rep: string)
    requires |pat| > 0 && |rep| == |pat| && rep != pat
    requires ReplaceAll(s, pat, rep) == s
    ensures !Occurs(s, pat)
  {
    if s != [] {
      if OccursAt(s, pat, 0) {
        assert false;
      } else {
        assert ReplaceAll(s, pat, rep) == [s[0]] + ReplaceAll(s[1..], pat, rep);
        assert ReplaceAll(s[1..], pat, rep) == s[1..];
        ReplaceKeepsNoChange(s[1..], pat, rep);
        forall i: nat | OccursAt(s, pat, i) ensures false {
          assert i > 0;
          assert s[1..][i - 1..i - 1 + |pat|] == s[i..i + |pat|];
          assert OccursAt(s[1..], pat, i - 1);
        }
      }
    } else {
      forall i: nat | OccursAt(s, pat, i) ensures false { }
    }
  }

  /** Replacing one character by another rewrites exactly the positions that
      held the first character and keeps every other one. */
  lemma {:induction false} ReplaceChar(s: string, a: char, b: char)
    ensures |ReplaceAll(s, [a], [b])| == |s|
    ensures forall i :: 0 <= i < |s| ==>
      ReplaceAll(s, [a], [b])[i] == (if s[i] == a then b else s[i])
  {
    if s != [] {
      ReplaceChar(s[1..], a, b);
      assert OccursAt(s, [a], 0) <==> s[0] == a;
      assert s[1..] == s[|[a]|..];
      var r := ReplaceAll(s, [a], [b]);
      forall i | 0 <= i < |s| ensures r[i] == (if s[i] == a then b else s[i]) {
        if i > 0 {
          assert r[i] == ReplaceAll(s[1..], [a], [b])[i - 1];
        }
      }
    }
  }

  /** `xs.join(sep)`. */
  function Join(xs: seq<string>, sep: string): string {
    if |xs| == 0 then ""
    else if |xs| == 1 then xs[0]
    else xs[0] + sep + Join(xs[1..], sep)
  }

  /** `s.split(c)`: the pieces between occurrences of `c`; the empty string
      splits into one empty piece. */
  function Split(s: string, c: char): (r: seq<string>)
    ensures |r| >= 1
  {
    if s == [] then [[]]
    else
      var rest := Split(s[1..], c);
      if s[0] == c then [[]] + rest
      else [[s[0]] + rest[0]] + rest[1..]
  }

  /** A piece free of the separator splits into itself. */
  lemma {:induction false} SplitWord(w: string, c: char)
    requires c !in w
    ensures Split(w, c) == [w]
  {
    if w != [] {
      SplitWord(w[1..], c);
      assert w == [w[0]] + w[1..];
    }
  }

  /** A separator-free piece followed by the separator splits off first. */
  lemma {:induction false} SplitAfterWord(w: string, c: char, rest: string)
    requires c !in w
    ensures Split(w + [c] + rest, c) == [w] + Split(rest, c)
  {
    if w == [] {
      assert [] + [c] + rest == [c] + rest;
      assert ([c] + rest)[1..] == rest;
    } else {
      assert (w + [c] + rest)[1..] == w[1..] + [c] + rest;
      SplitAfterWord(w[1..], c, rest);
      assert w == [w[0]] + w[1..];
    }
  }

  /** Joining non-empty lists of separator-free words with a one-character
      separator can be undone by splitting on that character. */
  lemma {:induction false} SplitJoin(xs: seq<string>, c: char)
    requires xs != []
    requires forall k :: 0 <= k < |xs| ==> c !in xs[k]
    ensures Split(Join(xs, [c]), c) == xs
  {
    if |xs| == 1 {
      SplitWord(xs[0], c);
    } else {
      SplitJoin(xs[1..], c);
      SplitAfterWord(xs[0], c, Join(xs[1..], [c]));
      assert xs == [xs[0]] + xs[1..];
    }
  }
}
