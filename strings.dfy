/** Rust's `str::contains` and `str::replace` on `seq<char>`, with the lemmas the other modules use. */
module Strings {
  import Seqs

  /** `w` occurs in `s` as a contiguous substring (`s.contains(w)`). */
  predicate Contains(s: string, w: string)
    decreases |s|
  {
    w <= s || (s != [] && Contains(s[1..], w))
  }

  lemma {:induction false} ContainsAtIndex(s: string, w: string, i: nat)
    requires i + |w| <= |s| && s[i..i + |w|] == w
    ensures Contains(s, w)
    decreases i
  {
    if i > 0 {
      assert s[1..][i - 1..i - 1 + |w|] == s[i..i + |w|];
      ContainsAtIndex(s[1..], w, i - 1);
    }
  }

  lemma ContainsInside(x: string, w: string, y: string)
    ensures Contains(x + w + y, w)
  {
    var s := x + w + y;
    assert s[|x|..|x| + |w|] == w;
    ContainsAtIndex(s, w, |x|);
  }

  /** A string lacking one of the characters of `w` cannot contain `w`. */
  lemma {:induction false} MissingCharExcludes(s: string, w: string, k: nat)
    requires k < |w| && w[k] !in s
    ensures !Contains(s, w)
    decreases |s|
  {
    if s != [] {
      MissingCharExcludes(s[1..], w, k);
    }
  }

  /** A string shorter than `w` cannot contain it. */
  lemma {:induction false} ShorterExcludes(s: string, w: string)
    requires |s| < |w|
    ensures !Contains(s, w)
    decreases |s|
  {
    if s != [] {
      ShorterExcludes(s[1..], w);
    }
  }

  /** Absence of `w` survives concatenation when `w` cannot straddle the seam. */
  lemma {:induction false} NotContainsConcat(a: string, b: string, w: string)
    requires w != [] && !Contains(a, w) && !Contains(b, w)
    requires a != [] ==> a[|a| - 1] !in w
    ensures !Contains(a + b, w)
    decreases |a|
  {
    if a == [] {
      assert a + b == b;
    } else {
      if |w| <= |a| {
        assert (a + b)[..|w|] == a[..|w|];
      } else {
        assert (a + b)[|a| - 1] == a[|a| - 1];
        assert w[|a| - 1] != (a + b)[|a| - 1];
      }
      assert (a + b)[1..] == a[1..] + b;
      NotContainsConcat(a[1..], b, w);
    }
  }

  /** `s.replace(pat, rep)`: left-to-right, non-overlapping; an empty pattern matches before every character and at the end. */
  function ReplaceAll(s: string, pat: string, rep: string): string
    decreases |s|
  {
    if pat == [] then
      (if s == [] then rep else rep + [s[0]] + ReplaceAll(s[1..], pat, rep))
    else if pat <= s then rep + ReplaceAll(s[|pat|..], pat, rep)
    else if s == [] then []
    else [s[0]] + ReplaceAll(s[1..], pat, rep)
  }

  /** Replacing a pattern that does not occur leaves the string as it is. */
  lemma {:induction false} ReplaceAbsent(s: string, pat: string, rep: string)
    requires pat != [] && !Contains(s, pat)
    ensures ReplaceAll(s, pat, rep) == s
    decreases |s|
  {
    if s != [] {
      ReplaceAbsent(s[1..], pat, rep);
    }
  }

  /** Replacing a pattern by itself is the identity (also for the empty pattern). */
  lemma {:induction false} ReplaceBySelf(s: string, pat: string)
    ensures ReplaceAll(s, pat, pat) == s
    decreases |s|
  {
    if pat == [] {
      if s != [] {
        ReplaceBySelf(s[1..], pat);
        assert s == [s[0]] + s[1..];
      }
    } else if pat <= s {
      ReplaceBySelf(s[|pat|..], pat);
      assert s == pat + s[|pat|..];
    } else if s != [] {
      ReplaceBySelf(s[1..], pat);
      assert s == [s[0]] + s[1..];
    }
  }

  /** A pattern that occurs only at the very start is replaced there and nowhere else. */
  lemma ReplaceLeading(pat: string, rest: string, rep: string)
    requires pat != [] && !Contains(rest, pat)
    ensures ReplaceAll(pat + rest, pat, rep) == rep + rest
  {
    assert pat <= pat + rest;
    assert (pat + rest)[|pat|..] == rest;
    ReplaceAbsent(rest, pat, rep);
  }

  /** Deleting a leading prefix that occurs nowhere else gives back the rest (`"word/header1.xml".replace("word/", "")`). */
  lemma StripPrefix(prefix: string, rest: string)
    requires prefix != [] && !Contains(rest, prefix)
    ensures ReplaceAll(prefix + rest, prefix, []) == rest
  {
    ReplaceLeading(prefix, rest, []);
  }

  lemma {:induction false} ContainsExtendLeft(a: string, b: string, w: string)
    requires Contains(b, w)
    ensures Contains(a + b, w)
    decreases |a|
  {
    if a == [] {
      assert a + b == b;
    } else {
      assert (a + b)[1..] == a[1..] + b;
      ContainsExtendLeft(a[1..], b, w);
    }
  }

  lemma {:induction false} ContainsExtendRight(a: string, b: string, w: string)
    requires Contains(a, w)
    ensures Contains(a + b, w)
    decreases |a|
  {
    if w <= a {
      assert w <= a + b;
    } else {
      assert (a + b)[1..] == a[1..] + b;
      ContainsExtendRight(a[1..], b, w);
    }
  }

  /** Each piece of a concatenation occurs in it. */
  lemma {:induction false} ContainsPiece(pieces: seq<string>, i: nat)
    requires i < |pieces|
    ensures Contains(Seqs.Concat(pieces), pieces[i])
    decreases |pieces|
  {
    var init := pieces[..|pieces| - 1];
    var last := pieces[|pieces| - 1];
    if i == |pieces| - 1 {
      assert last <= last;
      ContainsExtendLeft(Seqs.Concat(init), last, last);
    } else {
      assert init[i] == pieces[i];
      ContainsPiece(init, i);
      ContainsExtendRight(Seqs.Concat(init), last, pieces[i]);
    }
  }

  /**
   * A word none of whose pieces holds both characters `c1` and `c2` of it, and that no piece ends inside,
   * does not occur in the concatenation of the pieces.
   */
  lemma {:induction false} WordAbsentFromPieces(pieces: seq<string>, w: string, i1: nat, i2: nat)
    requires i1 < |w| && i2 < |w|
    requires forall p :: p in pieces ==> w[i1] !in p || w[i2] !in p
    requires forall p :: p in pieces ==> p == [] || p[|p| - 1] !in w
    ensures !Contains(Seqs.Concat(pieces), w)
    ensures Seqs.Concat(pieces) == [] || Seqs.Concat(pieces)[|Seqs.Concat(pieces)| - 1] !in w
    decreases |pieces|
  {
    if pieces != [] {
      var init := pieces[..|pieces| - 1];
      var last := pieces[|pieces| - 1];
      assert last in pieces;
      assert forall p :: p in init ==> p in pieces;
      WordAbsentFromPieces(init, w, i1, i2);
      if w[i1] !in last {
        MissingCharExcludes(last, w, i1);
      } else {
        MissingCharExcludes(last, w, i2);
      }
      NotContainsConcat(Seqs.Concat(init), last, w);
    }
  }
}
