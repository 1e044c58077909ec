/**
 * String operations of PHP and of the string helper library that the
 * pipeline calls: `ltrim`/`rtrim` with a character set, `trim` with PHP's
 * default set, substring search, `str_contains` and `str_replace`.
 * Strings are sequences of characters, one character per byte.
 */
module Text {
  import opened Php

  /** PHP's default `trim` set: space, tab, line feed, carriage return, NUL and vertical tab. */
  const TrimSet: set<char> := {' ', '\t', '\n', '\r', '\0', '\U{B}'}

  predicate IsBlank(c: char)
  {
    c in TrimSet
  }

  /** `ltrim($s, $chars)`: drops the longest prefix made only of characters of `cs`. */
  function LTrim(s: string, cs: set<char>): (r: string)
    ensures |r| <= |s| && r == s[|s| - |r|..]
    ensures r == [] || r[0] !in cs
  {
    if s != [] && s[0] in cs then LTrim(s[1..], cs) else s
  }

  /** Everything `ltrim` drops belongs to `cs`. */
  lemma {:induction false} LTrimDropsOnly(s: string, cs: set<char>)
    ensures forall i :: 0 <= i < |s| - |LTrim(s, cs)| ==> s[i] in cs
    decreases |s|
  {
    if s != [] && s[0] in cs {
      LTrimDropsOnly(s[1..], cs);
      forall i | 1 <= i < |s| - |LTrim(s, cs)|
        ensures s[i] in cs
      {
        assert s[i] == s[1..][i - 1];
      }
    }
  }

  /** `rtrim($s, $chars)`: drops the longest suffix made only of characters of `cs`. */
  function RTrim(s: string, cs: set<char>): (r: string)
    ensures |r| <= |s| && r == s[..|r|]
    ensures r == [] || r[|r| - 1] !in cs
  {
    if s != [] && s[|s| - 1] in cs then RTrim(s[..|s| - 1], cs) else s
  }

  /** Everything `rtrim` drops belongs to `cs`. */
  lemma {:induction false} RTrimDropsOnly(s: string, cs: set<char>)
    ensures forall i :: |RTrim(s, cs)| <= i < |s| ==> s[i] in cs
    decreases |s|
  {
    if s != [] && s[|s| - 1] in cs {
      RTrimDropsOnly(s[..|s| - 1], cs);
      forall i | |RTrim(s, cs)| <= i < |s| - 1
        ensures s[i] in cs
      {
        assert s[i] == s[..|s| - 1][i];
      }
    }
  }

  function TrimLeft(s: string): string
  {
    LTrim(s, TrimSet)
  }

  /** `trim($s)`: the string without leading and trailing blanks. */
  function Trim(s: string): (r: string)
    ensures r == [] || (!IsBlank(r[0]) && !IsBlank(r[|r| - 1]))
  {
    RTrim(LTrim(s, TrimSet), TrimSet)
  }

  /** `trim` removes blanks only: the input is the result framed by two runs of blanks. */
  lemma TrimFrames(s: string)
    ensures var i := |s| - |LTrim(s, TrimSet)|;
            && i + |Trim(s)| <= |s|
            && s[i..i + |Trim(s)|] == Trim(s)
            && (forall j :: 0 <= j < i ==> IsBlank(s[j]))
            && (forall j :: i + |Trim(s)| <= j < |s| ==> IsBlank(s[j]))
  {
    TrimIsSlice(s);
    TrimDropsLeadingBlanks(s);
    TrimDropsTrailingBlanks(s);
  }

  lemma {:induction false} TrimIsSlice(s: string)
    ensures var i := |s| - |LTrim(s, TrimSet)|;
            i + |Trim(s)| <= |s| && s[i..i + |Trim(s)|] == Trim(s)
  {
    var l := LTrim(s, TrimSet);
    var r := RTrim(l, TrimSet);
    assert Trim(s) == r;
    assert l == s[|s| - |l|..];
    assert r == l[..|r|];
    PrefixOfSuffix(s, |s| - |l|, l, r);
  }

  lemma PrefixOfSuffix(s: string, i: nat, l: string, r: string)
    requires i <= |s| && l == s[i..] && |r| <= |l| && r == l[..|r|]
    ensures i + |r| <= |s| && s[i..i + |r|] == r
  {
    assert s[i..i + |r|] == s[i..][..|r|];
  }

  lemma {:induction false} TrimDropsLeadingBlanks(s: string)
    ensures forall j :: 0 <= j < |s| - |LTrim(s, TrimSet)| ==> IsBlank(s[j])
  {
    LTrimDropsOnly(s, TrimSet);
  }

  lemma {:induction false} TrimDropsTrailingBlanks(s: string)
    ensures forall j :: |s| - |LTrim(s, TrimSet)| + |Trim(s)| <= j < |s| ==> IsBlank(s[j])
  {
    var l := LTrim(s, TrimSet);
    var r := RTrim(l, TrimSet);
    RTrimDropsOnly(l, TrimSet);
    BlankTailOfSuffix(s, |s| - |l|, l, |r|);
  }

  lemma BlankTailOfSuffix(s: string, i: nat, l: string, n: nat)
    requires i <= |s| && l == s[i..] && n <= |l|
    requires forall k :: n <= k < |l| ==> IsBlank(l[k])
    ensures forall j :: i + n <= j < |s| ==> IsBlank(s[j])
  {
    forall j | i + n <= j < |s|
      ensures IsBlank(s[j])
    {
      assert s[j] == l[j - i];
    }
  }

  /** Trimming twice is trimming once. */
  lemma TrimIdempotent(s: string)
    ensures Trim(Trim(s)) == Trim(s)
  {
    var r := Trim(s);
    assert LTrim(r, TrimSet) == r;
  }

  /** A string whose ends are not blank is its own trim. */
  lemma TrimOfTrimmed(s: string)
    requires s == [] || (!IsBlank(s[0]) && !IsBlank(s[|s| - 1]))
    ensures Trim(s) == s
  {
    assert LTrim(s, TrimSet) == s;
  }

  /** Blanks around a string do not survive `trim`. */
  lemma {:induction false} TrimAbsorbsBlanks(pre: string, s: string, post: string)
    requires forall i :: 0 <= i < |pre| ==> IsBlank(pre[i])
    requires forall i :: 0 <= i < |post| ==> IsBlank(post[i])
    ensures Trim(pre + s + post) == Trim(s)
    decreases |pre| + |post|
  {
    if pre != [] {
      assert (pre + s + post)[1..] == pre[1..] + s + post;
      TrimAbsorbsBlanks(pre[1..], s, post);
    } else if post != [] {
      var w := pre + s + post;
      assert w == s + post;
      LTrimOfBlankSuffix(s, post);
      var l := LTrim(s, TrimSet);
      if LTrim(w, TrimSet) == l + post {
        RTrimOfBlankSuffix(l, post);
      }
    } else {
      assert pre + s + post == s;
    }
  }

  lemma {:induction false} LTrimOfBlankSuffix(s: string, post: string)
    requires forall i :: 0 <= i < |post| ==> IsBlank(post[i])
    ensures LTrim(s + post, TrimSet) == LTrim(s, TrimSet) + post
            || (LTrim(s, TrimSet) == [] && LTrim(s + post, TrimSet) == [])
    decreases |s|
  {
    if s != [] {
      assert (s + post)[1..] == s[1..] + post;
      if s[0] in TrimSet {
        LTrimOfBlankSuffix(s[1..], post);
      }
    } else {
      assert s + post == post;
      LTrimAllBlank(post);
    }
  }

  lemma {:induction false} LTrimAllBlank(s: string)
    requires forall i :: 0 <= i < |s| ==> IsBlank(s[i])
    ensures LTrim(s, TrimSet) == []
    decreases |s|
  {
    if s != [] {
      LTrimAllBlank(s[1..]);
    }
  }

  lemma {:induction false} RTrimOfBlankSuffix(s: string, post: string)
    requires forall i :: 0 <= i < |post| ==> IsBlank(post[i])
    ensures RTrim(s + post, TrimSet) == RTrim(s, TrimSet)
    decreases |post|
  {
    if post != [] {
      var w := s + post;
      assert w[..|w| - 1] == s + post[..|post| - 1];
      RTrimOfBlankSuffix(s, post[..|post| - 1]);
    } else {
      assert s + post == s;
    }
  }

  // ---------------------------------------------------------------------
  // Search and replace
  // ---------------------------------------------------------------------

  predicate OccursAt(s: string, pat: string, i: nat)
  {
    i + |pat| <= |s| && s[i..i + |pat|] == pat
  }

  /** `strpos($s, $pat, $from)`: the first occurrence of `pat` at or after `from`. */
  function IndexOf(s: string, pat: string, from: nat): (r: Option<nat>)
    ensures r.Some? ==> from <= r.value && OccursAt(s, pat, r.value)
    ensures r.Some? ==> forall j :: from <= j < r.value ==> !OccursAt(s, pat, j)
    ensures r.None? ==> forall j :: from <= j ==> !OccursAt(s, pat, j)
    decreases |s| - from
  {
    if from + |pat| > |s| then None
    else if s[from..from + |pat|] == pat then Some(from)
    else IndexOf(s, pat, from + 1)
  }

  /** `str_contains($s, $pat)`. */
  predicate Contains(s: string, pat: string)
  {
    IndexOf(s, pat, 0).Some?
  }

  lemma ContainsMeansOccurs(s: string, pat: string)
    ensures Contains(s, pat) <==> exists i :: OccursAt(s, pat, i)
  {
    if !Contains(s, pat) {
      assert forall j :: 0 <= j ==> !OccursAt(s, pat, j);
    }
  }

  /**
   * `str_replace($pat, $rep, $s)` for a non-empty `pat`: occurrences are
   * found left to right, do not overlap, and are replaced in one pass.
   * An empty `pat` leaves the subject unchanged.
   */
  function ReplaceAll(s: string, pat: string, rep: string): (r: string)
    ensures !Contains(s, pat) ==> r == s
    decreases |s|
  {
    if |pat| == 0 then s
    else match IndexOf(s, pat, 0)
      case None => s
      case Some(i) => s[..i] + rep + ReplaceAll(s[i + |pat|..], pat, rep)
  }

  /**
   * `str_replace` splits at the first occurrence: the text before it is
   * kept, the occurrence becomes `rep`, and the rest is processed alike.
   */
  lemma {:induction false} ReplaceAllFirst(pre: string, pat: string, rep: string, post: string)
    requires |pat| > 0
    requires forall j :: 0 <= j < |pre| ==> !OccursAt(pre + pat, pat, j)
    ensures ReplaceAll(pre + pat + post, pat, rep) == pre + rep + ReplaceAll(post, pat, rep)
  {
    var s := pre + pat + post;
    assert OccursAt(s, pat, |pre|) by {
      assert s[|pre|..|pre| + |pat|] == pat;
    }
    forall j | 0 <= j < |pre|
      ensures !OccursAt(s, pat, j)
    {
      var head := pre + pat;
      assert head == s[..|head|];
      assert j + |pat| <= |head|;
      assert head[j..j + |pat|] == s[j..j + |pat|];
      assert !OccursAt(head, pat, j);
    }
    assert IndexOf(s, pat, 0) == Some(|pre|);
    assert s[..|pre|] == pre;
    assert s[|pre| + |pat|..] == post;
  }
}
